/** Filling one sink from the primary: cards the sink lacks are pushed to it,
    cards it holds are left alone. */
module Backfill {
  import opened CardEvents
  import opened CardStore
  import opened Json
  import opened Text

  datatype Failure = CardFailed(cardId: string) | SamplesFailed(cardId: string)

  datatype Report = Report(pushed: seq<string>, skipped: seq<string>, failed: seq<Failure>,
    pushedSamples: seq<string>)

  const EMPTY_REPORT := Report([], [], [], [])

  /** What a backfill works from: the primary, the file its lookup of an id finds,
      which of its files can be read, and for which cards the sink can be searched and
      written. */
  datatype Job = Job(primary: Tree, found: string -> CardPath, readCard: CardPath -> bool,
    readSamples: CardPath -> bool, uri: string, dryRun: bool, lookup: CardPath -> bool, cardIo: CardPath -> bool,
    samplesIo: CardPath -> bool)

  ghost predicate FindsCards(t: Tree, found: string -> CardPath) {
    forall id | HasCard(t, id) :: Finds(t, id, found(id))
  }

  datatype Sweep = Sweep(sink: Tree, stats: Stats, report: Report)

  /** The card can be read and the sink holds no card of that id. */
  ghost predicate Lacks(job: Job, sink: Tree, p: CardPath): (b: bool)
    ensures b ==> p in job.primary.cards
  {
    ValidName(p.cardId) && p in job.primary.cards && job.readCard(p) && !HasCard(sink, p.cardId)
  }

  /** And the sink says so: where its own lookup fails the card is skipped. */
  ghost predicate Pushable(job: Job, sink: Tree, p: CardPath): (b: bool)
    ensures b ==> p in job.primary.cards
  {
    Lacks(job, sink, p) && job.lookup(p)
  }

  ghost function SamplesOf(job: Job, cardId: string): Option<string> {
    if ValidName(cardId) && HasCard(job.primary, cardId) && job.found(cardId) in job.primary.samples
      && job.readSamples(job.found(cardId))
    then Some(job.primary.samples[job.found(cardId)]) else None
  }

  ghost function Predict(job: Job, r: Report, id: string): Report {
    r.(pushed := r.pushed + [id],
    pushedSamples := r.pushedSamples + if SamplesOf(job, id).Some? then [id] else [])
  }

  ghost function PushSamples(job: Job, s: Sweep, p: CardPath): Sweep {
    if SamplesOf(job, p.cardId).None? then s
    else
      var id := p.cardId;
      var ev := SamplesWritten(id, SamplesOf(job, id).value);
      var ok := Accepts(s.sink, ev, job.samplesIo(p));
      Sweep(Delivered(s.sink, ev, job.samplesIo(p)), Record(s.stats, job.uri, KSamples, ok),
        if ok then s.report.(pushedSamples := s.report.pushedSamples + [id])
        else s.report.(failed := s.report.failed + [SamplesFailed(id)]))
  }

  ghost function PushCard(job: Job, s: Sweep, p: CardPath): Sweep
    requires p in job.primary.cards
  {
    var id := p.cardId;
    var ev := Created(p.pkg, id, job.primary.cards[p]);
    var ok := Accepts(s.sink, ev, job.cardIo(p));
    var after := Sweep(Delivered(s.sink, ev, job.cardIo(p)), Record(s.stats, job.uri, KCreated, ok),
      if ok then s.report.(pushed := s.report.pushed + [id])
      else s.report.(failed := s.report.failed + [CardFailed(id)]));
    if ok then PushSamples(job, after, p) else after
  }

  ghost function SweepOne(job: Job, s: Sweep, p: CardPath): Sweep {
    if !Pushable(job, s.sink, p) then s.(report := s.report.(skipped := s.report.skipped + [p.cardId]))
    else if job.dryRun then s.(report := Predict(job, s.report, p.cardId))
    else PushCard(job, s, p)
  }

  ghost function SweepAll(job: Job, s: Sweep, locators: seq<CardPath>): Sweep {
    if locators == [] then s
    else
      var n := |locators| - 1;
      SweepOne(job, SweepAll(job, s, locators[..n]), locators[n])
  }

  // ----- the code -----

  method FindSubscriber(bus: CardEventBus, uri: string) returns (target: Option<nat>)
    ensures target.None? <==> forall i | 0 <= i < |bus.subscribers| :: bus.subscribers[i].uri != uri
    ensures target.Some? ==> target.value < |bus.subscribers| && bus.subscribers[target.value].uri == uri
  {
    for i := 0 to |bus.subscribers|
      invariant forall j | 0 <= j < i :: bus.subscribers[j].uri != uri
    {
      if bus.subscribers[i].uri == uri {
        return Some(i);
      }
    }
    target := None;
  }

  ghost function JobOf(store: FileCardStore, found: string -> CardPath, readCard: CardPath -> bool,
      readSamples: CardPath -> bool, uri: string, dryRun: bool, lookup: CardPath -> bool, cardIo: CardPath -> bool,
      samplesIo: CardPath -> bool): Job
    reads store
  {
    Job(store.View(), found, readCard, readSamples, uri, dryRun, lookup, cardIo, samplesIo)
  }

  /** `locators` is the primary's listing: every card of the packages that can be read. */
  method CardSinkBackfill(store: FileCardStore, bus: CardEventBus, sink: string, dryRun: bool,
      rootReads: bool, pkgReads: string -> bool, found: string -> CardPath, readCard: CardPath -> bool,
      readSamples: CardPath -> bool, lookup: CardPath -> bool, cardIo: CardPath -> bool, samplesIo: CardPath -> bool)
      returns (r: Result<Report>, ghost target: nat, ghost locators: seq<CardPath>)
    requires bus.Valid() && FindsCards(store.View(), found)
    modifies bus`stats, bus.subscribers
    ensures r.Ok? <==> rootReads && exists i | 0 <= i < |bus.subscribers| :: bus.subscribers[i].uri == sink
    ensures r.Err? ==> bus.stats == old(bus.stats)
    ensures r.Ok? ==>
              && target < |bus.subscribers| && bus.subscribers[target].uri == sink
              && Lists(store.View(), pkgReads, locators)
              && var job := JobOf(store, found, readCard, readSamples, sink, dryRun, lookup, cardIo, samplesIo);
                 SweepAll(job, Sweep(old(bus.subscribers[target].View()), old(bus.stats), EMPTY_REPORT), locators)
                 == Sweep(bus.subscribers[target].View(), bus.stats, r.value)
    ensures forall i | 0 <= i < |bus.subscribers| && (r.Err? || i != target) ::
              bus.subscribers[i].View() == old(bus.subscribers[i].View())
  {
    hide ValidName, SweepOne, SweepAll, FindsCards, Lists, FileCardStore.View, FileCardSubscriber.View;
    target, locators := 0, [];
    var at := FindSubscriber(bus, sink);
    if at.None? {
      return Err("unknown sink"), 0, [];
    }
    var listed := store.ListCardLocators(rootReads, pkgReads);
    if listed.Err? {
      return Err(listed.error), 0, [];
    }
    var t, all := at.value, listed.value;
    target, locators := t, all;
    ghost var job := JobOf(store, found, readCard, readSamples, sink, dryRun, lookup, cardIo, samplesIo);
    var sub := bus.subscribers[t];
    ghost var start := Sweep(sub.View(), bus.stats, EMPTY_REPORT);
    NothingSwept(job, start);
    var report := EMPTY_REPORT;
    for i := 0 to |all|
      invariant job.primary == store.View()
      invariant SweepAll(job, start, all[..i]) == Sweep(sub.View(), bus.stats, report)
      invariant forall j | 0 <= j < |bus.subscribers| && j != t ::
          bus.subscribers[j].View() == old(bus.subscribers[j].View())
    {
      var p := all[i];
      ListedIsCard(store.View(), pkgReads, all, i);
      SweepStep(job, start, all, i);
      report := BackfillOne(store, bus, t, job, report, p, found(p.cardId), readCard(p),
        readSamples(found(p.cardId)), lookup(p), cardIo(p), samplesIo(p), dryRun);
    }
    assert all[..|all|] == all;
    r := Ok(report);
  }

  lemma ListedIsCard(t: Tree, pkgReads: string -> bool, locators: seq<CardPath>, i: nat)
    requires Lists(t, pkgReads, locators) && i < |locators|
    ensures locators[i] in t.cards
  {
    assert locators[i] in locators;
  }

  lemma NothingSwept(job: Job, s: Sweep)
    ensures SweepAll(job, s, []) == s
  {
  }

  lemma SweepStep(job: Job, s: Sweep, locators: seq<CardPath>, i: nat)
    requires i < |locators|
    ensures SweepAll(job, s, locators[..i + 1]) == SweepOne(job, SweepAll(job, s, locators[..i]), locators[i])
  {
    assert locators[..i + 1][..i] == locators[..i];
  }

  /** `q` is the file the primary finds for the card's id, where its samples are. */
  method BackfillOne(store: FileCardStore, bus: CardEventBus, target: nat, ghost job: Job, report: Report,
      p: CardPath, q: CardPath, readCard: bool, readSamples: bool, lookup: bool, cardIo: bool, samplesIo: bool,
      dryRun: bool) returns (r: Report)
    requires target < |bus.subscribers| && p in store.View().cards
    requires job.primary == store.View() && FindsCards(job.primary, job.found) && q == job.found(p.cardId)
    requires job.uri == bus.subscribers[target].uri && job.dryRun == dryRun && job.readCard(p) == readCard
    requires job.readSamples(q) == readSamples && job.lookup(p) == lookup
    requires job.cardIo(p) == cardIo && job.samplesIo(p) == samplesIo
    modifies bus`stats, bus.subscribers[target]
    ensures Sweep(bus.subscribers[target].View(), bus.stats, r)
         == SweepOne(job, Sweep(old(bus.subscribers[target].View()), old(bus.stats), report), p)
  {
    hide Lands, Accepts, Delivered, FindsCards;
    var sub, id := bus.subscribers[target], p.cardId;
    assert HasCard(store.View(), id);
    ghost var was := sub.View();
    var held := sub.HasCardId(id, lookup);
    if held.Err? || held.value || !readCard {
      return report.(skipped := report.skipped + [id]);
    }
    if dryRun {
      r := report.(pushed := report.pushed + [id]);
      if q in store.samples && readSamples {
        r := r.(pushedSamples := r.pushedSamples + [id]);
      }
      return;
    }
    var ok := bus.PublishTo(target, Created(p.pkg, id, store.cards[p]), cardIo);
    LandsOneWay(was, Created(p.pkg, id, store.cards[p]), cardIo, sub.View());
    if !ok {
      return report.(failed := report.failed + [CardFailed(id)]);
    }
    CreatedOnNewId(was, p, store.cards[p], cardIo);
    r := report.(pushed := report.pushed + [id]);
    if q in store.samples && readSamples {
      ghost var mid := sub.View();
      var ok := bus.PublishTo(target, SamplesWritten(id, store.samples[q]), samplesIo);
      LandsOneWay(mid, SamplesWritten(id, store.samples[q]), samplesIo, sub.View());
      r := if ok then r.(pushedSamples := r.pushedSamples + [id])
           else r.(failed := r.failed + [SamplesFailed(id)]);
    }
  }

  // ----- held cards are left alone -----

  lemma CreatedOnNewId(sink: Tree, p: CardPath, text: string, io: bool)
    requires !HasCard(sink, p.cardId) && ValidName(p.cardId)
    ensures var ev := Created(p.pkg, p.cardId, text);
            var after := Delivered(sink, ev, io);
            && p !in sink.cards
            && (Accepts(sink, ev, io) <==> io && ValidName(p.pkg))
            && after == (if Accepts(sink, ev, io) then sink.(cards := sink.cards[p := text]) else sink)
            && (Accepts(sink, ev, io) ==> Finds(after, p.cardId, p) && OneFile(after, p.cardId))
  {
    hide ValidName;
  }

  lemma SamplesOnNewId(sink: Tree, p: CardPath, text: string, io: bool)
    requires ValidName(p.cardId) && Finds(sink, p.cardId, p) && OneFile(sink, p.cardId)
    ensures var ev := SamplesWritten(p.cardId, text);
            && (Accepts(sink, ev, io) <==> io)
            && Delivered(sink, ev, io) == if io then sink.(samples := sink.samples[p := text]) else sink
  {
    hide ValidName;
    assert Finds(sink, p.cardId, PathOf(sink, p.cardId));
  }

  /** The sink tree after one step, in terms of the step's own outcome. */
  ghost function StepTree(job: Job, sink: Tree, p: CardPath): Tree {
    if !Pushable(job, sink, p) || job.dryRun || !job.cardIo(p) || !ValidName(p.pkg) then sink
    else
      var withCard := sink.(cards := sink.cards[p := job.primary.cards[p]]);
      if SamplesOf(job, p.cardId).None? || !job.samplesIo(p) then withCard
      else withCard.(samples := sink.samples[p := SamplesOf(job, p.cardId).value])
  }

  ghost function StepReport(job: Job, sink: Tree, p: CardPath): Report {
    var id := p.cardId;
    var withSamples := SamplesOf(job, id).Some?;
    if !Pushable(job, sink, p) then Report([], [id], [], [])
    else if job.dryRun then Report([id], [], [], if withSamples then [id] else [])
    else if !job.cardIo(p) || !ValidName(p.pkg) then Report([], [], [CardFailed(id)], [])
    else
      Report([id], [], if withSamples && !job.samplesIo(p) then [SamplesFailed(id)] else [],
        if withSamples && job.samplesIo(p) then [id] else [])
  }

  ghost function Join(a: Report, b: Report): Report {
    Report(a.pushed + b.pushed, a.skipped + b.skipped, a.failed + b.failed, a.pushedSamples + b.pushedSamples)
  }

  lemma StepIs(job: Job, s: Sweep, p: CardPath)
    ensures var after := SweepOne(job, s, p);
            && after.sink == StepTree(job, s.sink, p)
            && after.report == Join(s.report, StepReport(job, s.sink, p))
            && after.stats == if !Pushable(job, s.sink, p) || job.dryRun then s.stats
               else
                 var ok := job.cardIo(p) && ValidName(p.pkg);
                 var st := Record(s.stats, job.uri, KCreated, ok);
                 if ok && SamplesOf(job, p.cardId).Some? then Record(st, job.uri, KSamples, job.samplesIo(p)) else st
  {
    hide ValidName, Accepts, Delivered, SamplesOf, HasCard, Record;
    if Pushable(job, s.sink, p) && !job.dryRun {
      CreatedOnNewId(s.sink, p, job.primary.cards[p], job.cardIo(p));
      if SamplesOf(job, p.cardId).Some? {
        var withCard := s.sink.(cards := s.sink.cards[p := job.primary.cards[p]]);
        if job.cardIo(p) && ValidName(p.pkg) {
          SamplesOnNewId(withCard, p, SamplesOf(job, p.cardId).value, job.samplesIo(p));
        }
      }
    }
  }

  /** Whatever fails and however often ids repeat: cards and samples of cards the
      sink held stay as they were, and so does its alias table. */
  lemma {:induction false} HeldCardsUntouched(job: Job, s: Sweep, locators: seq<CardPath>)
    ensures var after := SweepAll(job, s, locators).sink;
            && s.sink.cards.Keys <= after.cards.Keys
            && Restricted(after, s.sink.cards.Keys) == Restricted(s.sink, s.sink.cards.Keys)
  {
    if locators != [] {
      hide ValidName, SweepOne, SamplesOf, Restricted, StepReport;
      var n := |locators| - 1;
      HeldCardsUntouched(job, s, locators[..n]);
      var mid, p := SweepAll(job, s, locators[..n]), locators[n];
      StepIs(job, mid, p);
      if Pushable(job, mid.sink, p) {
        assert p !in mid.sink.cards;
        AddingElsewhere(mid.sink, StepTree(job, mid.sink, p), s.sink.cards.Keys, p);
      }
    }
  }

  lemma AddingElsewhere(a: Tree, b: Tree, ps: set<CardPath>, p: CardPath)
    requires p !in ps && a.aliases == b.aliases
    requires a.cards == b.cards || (p in b.cards && b.cards == a.cards[p := b.cards[p]])
    requires a.samples == b.samples || (p in b.samples && b.samples == a.samples[p := b.samples[p]])
    ensures Restricted(b, ps) == Restricted(a, ps)
  {
    assert Restricted(b, ps).cards == Restricted(a, ps).cards;
    assert Restricted(b, ps).samples == Restricted(a, ps).samples;
  }

  // ----- a run that does not fail -----

  /** No listed card is lacking. */
  ghost predicate Settled(job: Job, sink: Tree, locators: seq<CardPath>) {
    forall i | 0 <= i < |locators| :: !Lacks(job, sink, locators[i])
  }

  /** The sink was asked, with an answer, for a lacking card of this id. */
  ghost predicate Asked(job: Job, sink: Tree, locators: seq<CardPath>, id: string) {
    exists i | 0 <= i < |locators| :: locators[i].cardId == id && Pushable(job, sink, locators[i])
  }

  lemma AskedSnoc(job: Job, sink: Tree, locators: seq<CardPath>, id: string)
    requires locators != []
    ensures var n := |locators| - 1;
            Asked(job, sink, locators, id)
            <==> Asked(job, sink, locators[..n], id)
                 || (locators[n].cardId == id && Pushable(job, sink, locators[n]))
  {
    hide Pushable;
    var n := |locators| - 1;
    assert forall i | 0 <= i < n :: locators[..n][i] == locators[i];
  }

  lemma StepArrives(job: Job, sink: Tree, p: CardPath, id: string)
    requires StepReport(job, sink, p).failed == [] && !job.dryRun
    ensures HasCard(StepTree(job, sink, p), id)
       <==> HasCard(sink, id) || (p.cardId == id && Pushable(job, sink, p))
  {
    hide ValidName, SamplesOf;
    var after := StepTree(job, sink, p);
    if Pushable(job, sink, p) {
      assert p in after.cards;
    }
    if HasCard(sink, id) {
      var q :| q in sink.cards && q.cardId == id;
      assert q in after.cards;
    }
  }

  /** After a run without failures the sink holds what it held and the cards it was
      asked for with an answer. */
  lemma {:induction false} ArrivesExactly(job: Job, s: Sweep, locators: seq<CardPath>, id: string)
    requires !job.dryRun && SweepAll(job, s, locators).report.failed == []
    ensures HasCard(SweepAll(job, s, locators).sink, id) <==> HasCard(s.sink, id) || Asked(job, s.sink, locators, id)
  {
    if locators != [] {
      hide ValidName, SweepOne, Pushable, SamplesOf, StepTree, StepReport, HasCard, Asked;
      var n := |locators| - 1;
      var mid, p := SweepAll(job, s, locators[..n]), locators[n];
      StepIs(job, mid, p);
      ArrivesExactly(job, s, locators[..n], id);
      ArrivesExactly(job, s, locators[..n], p.cardId);
      StepArrives(job, mid.sink, p, id);
      AskedSnoc(job, s.sink, locators, id);
      PushableLater(job, s.sink, mid.sink, p);
    }
  }

  lemma PushableLater(job: Job, start: Tree, sink: Tree, p: CardPath)
    ensures !HasCard(start, p.cardId) && !HasCard(sink, p.cardId) ==>
              (Pushable(job, sink, p) <==> Pushable(job, start, p))
    ensures HasCard(start, p.cardId) ==> !Pushable(job, start, p)
    ensures HasCard(sink, p.cardId) ==> !Pushable(job, sink, p)
  {
    hide ValidName, HasCard;
  }

  /** What a run that reports no failure leaves: every readable card with a valid id is
      on the sink exactly when each one it lacked was asked for with an answer. A card
      whose lookup fails on the sink is reported as skipped, and is left behind. */
  lemma NothingLeftBehind(job: Job, s: Sweep, locators: seq<CardPath>)
    requires !job.dryRun && SweepAll(job, s, locators).report.failed == []
    ensures Settled(job, SweepAll(job, s, locators).sink, locators)
       <==> forall i | 0 <= i < |locators| && Lacks(job, s.sink, locators[i]) ::
              Asked(job, s.sink, locators, locators[i].cardId)
  {
    hide ValidName, SweepAll, HasCard, Asked;
    var after := SweepAll(job, s, locators).sink;
    forall i | 0 <= i < |locators|
      ensures Lacks(job, after, locators[i])
         <==> Lacks(job, s.sink, locators[i]) && !Asked(job, s.sink, locators, locators[i].cardId)
    {
      LeftBehind(job, s, locators, i);
    }
  }

  lemma LeftBehind(job: Job, s: Sweep, locators: seq<CardPath>, i: nat)
    requires !job.dryRun && SweepAll(job, s, locators).report.failed == [] && i < |locators|
    ensures Lacks(job, SweepAll(job, s, locators).sink, locators[i])
       <==> Lacks(job, s.sink, locators[i]) && !Asked(job, s.sink, locators, locators[i].cardId)
  {
    hide ValidName, SweepAll, HasCard, Asked;
    ArrivesExactly(job, s, locators, locators[i].cardId);
  }

  /** Where every lookup works, nothing is left behind. */
  lemma AllAskedSettles(job: Job, s: Sweep, locators: seq<CardPath>)
    requires !job.dryRun && SweepAll(job, s, locators).report.failed == []
    requires forall i | 0 <= i < |locators| :: job.lookup(locators[i])
    ensures Settled(job, SweepAll(job, s, locators).sink, locators)
  {
    hide Lacks, SweepAll;
    NothingLeftBehind(job, s, locators);
    forall i | 0 <= i < |locators| && Lacks(job, s.sink, locators[i])
      ensures Asked(job, s.sink, locators, locators[i].cardId)
    {
      assert Pushable(job, s.sink, locators[i]);
    }
  }

  /** One readable card, an empty sink and a root that cannot be listed: the report
      shows no failure and the sink stays empty. */
  lemma FailedLookupLeavesBehind(job: Job, p: CardPath, stats: Stats)
    requires !job.dryRun && p in job.primary.cards && job.readCard(p) && ValidName(p.cardId) && !job.lookup(p)
    ensures var after := SweepAll(job, Sweep(EMPTY_TREE, stats, EMPTY_REPORT), [p]);
            && after == Sweep(EMPTY_TREE, stats, Report([], [p.cardId], [], []))
            && !Settled(job, after.sink, [p])
  {
    hide ValidName;
    var start := Sweep(EMPTY_TREE, stats, EMPTY_REPORT);
    OneStep(job, start, p);
    assert !HasCard(EMPTY_TREE, p.cardId);
    assert Lacks(job, EMPTY_TREE, [p][0]);
    assert [] + [p.cardId] == [p.cardId];
  }

  function Ids(locators: seq<CardPath>): (ids: seq<string>)
    ensures |ids| == |locators| && forall i | 0 <= i < |ids| :: ids[i] == locators[i].cardId
  {
    seq(|locators|, i requires 0 <= i < |locators| => locators[i].cardId)
  }

  ghost predicate NonePushable(job: Job, sink: Tree, locators: seq<CardPath>) {
    forall i | 0 <= i < |locators| :: !Pushable(job, sink, locators[i])
  }

  ghost function SkippedAll(s: Sweep, locators: seq<CardPath>): Sweep {
    s.(report := s.report.(skipped := s.report.skipped + Ids(locators)))
  }

  lemma SkippedSnoc(s: Sweep, locators: seq<CardPath>)
    requires locators != []
    ensures var n := |locators| - 1;
            var mid := SkippedAll(s, locators[..n]);
            SkippedAll(s, locators) == mid.(report := mid.report.(skipped := mid.report.skipped + [locators[n].cardId]))
  {
    var n := |locators| - 1;
    assert Ids(locators) == Ids(locators[..n]) + [locators[n].cardId];
    assert s.report.skipped + Ids(locators) == s.report.skipped + Ids(locators[..n]) + [locators[n].cardId];
  }

  lemma NonePushableSnoc(job: Job, sink: Tree, locators: seq<CardPath>)
    requires locators != []
    ensures var n := |locators| - 1;
            NonePushable(job, sink, locators)
            <==> NonePushable(job, sink, locators[..n]) && !Pushable(job, sink, locators[n])
  {
    hide Pushable;
    var n := |locators| - 1;
    assert forall i | 0 <= i < n :: locators[..n][i] == locators[i];
  }

  lemma SkipsAtMost(job: Job, s: Sweep, p: CardPath)
    ensures var skipped := SweepOne(job, s, p).report.skipped;
            if Pushable(job, s.sink, p) then skipped == s.report.skipped else skipped == s.report.skipped + [p.cardId]
  {
    hide Pushable, SamplesOf, Accepts, Delivered, Record;
  }

  lemma {:induction false} SkippedBound(job: Job, s: Sweep, locators: seq<CardPath>)
    ensures |SweepAll(job, s, locators).report.skipped| <= |s.report.skipped| + |locators|
  {
    if locators != [] {
      hide SweepOne, Pushable;
      var n := |locators| - 1;
      SkippedBound(job, s, locators[..n]);
      SkipsAtMost(job, SweepAll(job, s, locators[..n]), locators[n]);
    }
  }

  /** A run skips every card, and then touches nothing, exactly when none can be pushed. */
  lemma {:induction false} SkipsAllExactly(job: Job, s: Sweep, locators: seq<CardPath>)
    ensures SweepAll(job, s, locators) == SkippedAll(s, locators) <==> NonePushable(job, s.sink, locators)
    ensures |SweepAll(job, s, locators).report.skipped| == |s.report.skipped| + |locators| ==>
              NonePushable(job, s.sink, locators)
  {
    hide Pushable;
    if locators == [] {
      assert s.report.skipped + Ids([]) == s.report.skipped;
    } else {
      hide SweepOne, NonePushable, SkippedAll;
      var n := |locators| - 1;
      var front, mid := locators[..n], SweepAll(job, s, locators[..n]);
      SkipsAllExactly(job, s, front);
      SkippedBound(job, s, front);
      SkipsAtMost(job, mid, locators[n]);
      SkippedSnoc(s, locators);
      NonePushableSnoc(job, s.sink, locators);
      SkippedLength(s, locators);
      SkippedSink(s, front);
      if NonePushable(job, s.sink, locators) {
        SkipOne(job, mid, locators[n]);
      }
    }
  }

  lemma SkippedLength(s: Sweep, locators: seq<CardPath>)
    ensures |SkippedAll(s, locators).report.skipped| == |s.report.skipped| + |locators|
  {
  }

  lemma SkippedSink(s: Sweep, locators: seq<CardPath>)
    ensures SkippedAll(s, locators).sink == s.sink
  {
  }

  lemma SkipOne(job: Job, s: Sweep, p: CardPath)
    requires !Pushable(job, s.sink, p)
    ensures SweepOne(job, s, p) == s.(report := s.report.(skipped := s.report.skipped + [p.cardId]))
  {
    hide Pushable;
  }

  /** Running again after a run without failures skips every card, and leaves sink and
      counters as they are, exactly when no card that was left behind is now found to
      be lacking. */
  lemma SecondRunPushesNothing(job: Job, s: Sweep, locators: seq<CardPath>, again: Job)
    requires !job.dryRun && SweepAll(job, s, locators).report.failed == []
    requires again.primary == job.primary && again.readCard == job.readCard
    ensures var once := SweepAll(job, s, locators).(report := EMPTY_REPORT);
            SweepAll(again, once, locators) == once.(report := Report([], Ids(locators), [], []))
            <==> forall i | 0 <= i < |locators| && Lacks(job, s.sink, locators[i]) && again.lookup(locators[i]) ::
                   Asked(job, s.sink, locators, locators[i].cardId)
  {
    hide ValidName, SweepAll, HasCard, Asked;
    var once := SweepAll(job, s, locators).(report := EMPTY_REPORT);
    forall i | 0 <= i < |locators|
      ensures Pushable(again, once.sink, locators[i])
         <==> Lacks(job, s.sink, locators[i]) && again.lookup(locators[i])
              && !Asked(job, s.sink, locators, locators[i].cardId)
    {
      LeftBehind(job, s, locators, i);
    }
    SkipsAllExactly(again, once, locators);
    assert [] + Ids(locators) == Ids(locators);
  }

  // ----- the dry run -----

  function Dedup(ids: seq<string>): seq<string> {
    if ids == [] then []
    else
      var front := Dedup(ids[..|ids| - 1]);
      if ids[|ids| - 1] in ids[..|ids| - 1] then front else front + [ids[|ids| - 1]]
  }

  predicate Distinct(ids: seq<string>) {
    forall i, j | 0 <= i < j < |ids| :: ids[i] != ids[j]
  }

  lemma {:induction false} DedupIsIdentity(ids: seq<string>)
    ensures |Dedup(ids)| <= |ids| && (Dedup(ids) == ids <==> Distinct(ids))
  {
    if ids != [] {
      var front, last := ids[..|ids| - 1], ids[|ids| - 1];
      DedupIsIdentity(front);
      assert ids == front + [last];
      if Dedup(ids) == ids {
        assert |Dedup(front)| == |front|;
        assert Dedup(front) == (Dedup(front) + [last])[..|front|] == front;
      }
    }
  }

  /** The ids a dry run lists. */
  ghost function Wanted(job: Job, sink: Tree, locators: seq<CardPath>): seq<string> {
    if locators == [] then []
    else
      var n := |locators| - 1;
      Wanted(job, sink, locators[..n]) + if Pushable(job, sink, locators[n]) then [locators[n].cardId] else []
  }

  /** A dry run changes neither the sink nor a counter. */
  lemma {:induction false} DryRunChangesNothing(job: Job, s: Sweep, locators: seq<CardPath>)
    requires job.dryRun
    ensures var after := SweepAll(job, s, locators);
            && after.sink == s.sink && after.stats == s.stats && after.report.failed == s.report.failed
            && after.report.pushed == s.report.pushed + Wanted(job, s.sink, locators)
  {
    hide Pushable, SamplesOf;
    if locators != [] {
      DryRunChangesNothing(job, s, locators[..|locators| - 1]);
    }
  }

  /** The sink can be searched and written for every listed card. */
  ghost predicate Healthy(job: Job, locators: seq<CardPath>) {
    forall i | 0 <= i < |locators| ::
      && job.lookup(locators[i]) && job.cardIo(locators[i]) && job.samplesIo(locators[i])
      && ValidName(locators[i].pkg)
  }

  ghost predicate CarriesOver(job: Job, start: Tree, sink: Tree, ids: seq<string>) {
    forall p :: Pushable(job, sink, p) <==> Pushable(job, start, p) && p.cardId !in ids
  }

  lemma CarriesOverStep(job: Job, start: Tree, sink: Tree, ids: seq<string>, p: CardPath)
    requires CarriesOver(job, start, sink, ids) && !job.dryRun && job.cardIo(p) && ValidName(p.pkg)
    ensures CarriesOver(job, start, StepTree(job, sink, p),
              ids + if Pushable(job, start, p) then [p.cardId] else [])
  {
    hide ValidName, SamplesOf;
    var after := StepTree(job, sink, p);
    if Pushable(job, sink, p) {
      assert after.cards == sink.cards[p := job.primary.cards[p]];
      forall q
        ensures Pushable(job, after, q) <==> Pushable(job, sink, q) && q.cardId != p.cardId
      {
        assert p in after.cards;
        if HasCard(sink, q.cardId) {
          var h :| h in sink.cards && h.cardId == q.cardId;
          assert h in after.cards;
        }
      }
    }
  }

  lemma RealStep(job: Job, start: Tree, s: Sweep, ids: seq<string>, p: CardPath)
    requires !job.dryRun && CarriesOver(job, start, s.sink, ids)
    requires job.cardIo(p) && job.samplesIo(p) && ValidName(p.pkg)
    ensures var after, wanted := SweepOne(job, s, p), Pushable(job, start, p);
            && after.report.failed == s.report.failed
            && after.report.pushed == s.report.pushed + (if wanted && p.cardId !in ids then [p.cardId] else [])
            && CarriesOver(job, start, after.sink, ids + if wanted then [p.cardId] else [])
  {
    hide ValidName, SweepOne, Pushable, SamplesOf, StepTree, CarriesOver;
    StepIs(job, s, p);
    CarriesOverStep(job, start, s.sink, ids, p);
    CarriedOver(job, start, s.sink, ids, p);
  }

  lemma DedupSnoc(ids: seq<string>, id: string)
    ensures Dedup(ids + [id]) == Dedup(ids) + if id in ids then [] else [id]
  {
    assert (ids + [id])[..|ids|] == ids;
  }

  /** On a working sink a real run pushes what the dry run lists, each id once. */
  lemma {:induction false} RealRunPushes(job: Job, s: Sweep, locators: seq<CardPath>)
    requires !job.dryRun && Healthy(job, locators)
    ensures var after := SweepAll(job, s, locators);
            && after.report.failed == s.report.failed
            && after.report.pushed == s.report.pushed + Dedup(Wanted(job, s.sink, locators))
            && CarriesOver(job, s.sink, after.sink, Wanted(job, s.sink, locators))
  {
    hide ValidName, SweepOne, Pushable, Dedup, CarriesOver;
    if locators != [] {
      var n := |locators| - 1;
      RealRunPushes(job, s, locators[..n]);
      var ids, p := Wanted(job, s.sink, locators[..n]), locators[n];
      RealStep(job, s.sink, SweepAll(job, s, locators[..n]), ids, p);
      DedupSnoc(ids, p.cardId);
      assert ids + [] == ids;
    } else {
      CarriesOverStart(job, s.sink);
      DedupIsIdentity([]);
    }
  }

  lemma CarriedOver(job: Job, start: Tree, sink: Tree, ids: seq<string>, p: CardPath)
    requires CarriesOver(job, start, sink, ids)
    ensures Pushable(job, sink, p) <==> Pushable(job, start, p) && p.cardId !in ids
  {
  }

  lemma CarriesOverStart(job: Job, sink: Tree)
    ensures CarriesOver(job, sink, sink, [])
  {
    hide Pushable;
  }

  /** A dry run predicts the pushed list exactly when no two pushable cards share
      an id. */
  lemma DryRunPredicts(job: Job, sink: Tree, stats: Stats, locators: seq<CardPath>)
    requires !job.dryRun && Healthy(job, locators)
    ensures var start := Sweep(sink, stats, EMPTY_REPORT);
            var live, dry := SweepAll(job, start, locators), SweepAll(job.(dryRun := true), start, locators);
            && live.report.pushed == Dedup(dry.report.pushed)
            && (live.report.pushed == dry.report.pushed <==> Distinct(Wanted(job, sink, locators)))
  {
    hide Healthy, SweepAll, Pushable, CarriesOver;
    var start := Sweep(sink, stats, EMPTY_REPORT);
    var ids := Wanted(job, sink, locators);
    RealRunPushes(job, start, locators);
    DryRunChangesNothing(job.(dryRun := true), start, locators);
    SameWanted(job, sink, locators);
    DedupIsIdentity(ids);
    assert [] + ids == ids && [] + Dedup(ids) == Dedup(ids);
  }

  lemma {:induction false} SameWanted(job: Job, sink: Tree, locators: seq<CardPath>)
    ensures Wanted(job.(dryRun := true), sink, locators) == Wanted(job, sink, locators)
  {
    hide ValidName, HasCard;
    if locators != [] {
      SameWanted(job, sink, locators[..|locators| - 1]);
    }
  }

  // ----- what arrives -----

  ghost function NewCards(job: Job, sink: Tree, ps: set<CardPath>): map<CardPath, string> {
    map p | p in ps && Pushable(job, sink, p) :: job.primary.cards[p]
  }

  ghost function NewSamples(job: Job, sink: Tree, ps: set<CardPath>): map<CardPath, string> {
    map p | p in ps && Pushable(job, sink, p) && SamplesOf(job, p.cardId).Some? :: SamplesOf(job, p.cardId).value
  }

  /** The sink after a full backfill: what it held, plus every readable card it
      lacked and the readable samples of those. */
  ghost function Filled(job: Job, sink: Tree, ps: set<CardPath>): Tree {
    Tree(sink.cards + NewCards(job, sink, ps), sink.samples + NewSamples(job, sink, ps), sink.aliases)
  }

  function Members(locators: seq<CardPath>): (ps: set<CardPath>)
    ensures forall p :: p in ps <==> p in locators
  {
    if locators == [] then {} else Members(locators[..|locators| - 1]) + {locators[|locators| - 1]}
  }

  /** With unique ids and a working sink a real run ends with the filled tree. */
  lemma {:induction false} BackfillFills(job: Job, s: Sweep, locators: seq<CardPath>)
    requires UniqueIds(job.primary) && !job.dryRun && Healthy(job, locators)
    requires forall i | 0 <= i < |locators| :: locators[i] in job.primary.cards
    requires forall i, j | 0 <= i < j < |locators| :: locators[i] != locators[j]
    ensures SweepAll(job, s, locators).sink == Filled(job, s.sink, Members(locators))
  {
    hide ValidName, UniqueIds, SweepOne, Pushable, StepTree, StepReport, Wanted, CarriesOver, Filled;
    if locators != [] {
      var n := |locators| - 1;
      var mid, p := SweepAll(job, s, locators[..n]), locators[n];
      BackfillFills(job, s, locators[..n]);
      RealRunPushes(job, s, locators[..n]);
      StepIs(job, mid, p);
      CarriedOver(job, s.sink, mid.sink, Wanted(job, s.sink, locators[..n]), p);
      NotWantedYet(job, s.sink, locators[..n], p);
      FilledStep(job, s.sink, Members(locators[..n]), p);
    } else {
      FilledByNothing(job, s.sink);
    }
  }

  lemma FilledByNothing(job: Job, sink: Tree)
    ensures Filled(job, sink, {}) == sink
  {
    hide Pushable, SamplesOf;
    assert NewCards(job, sink, {}) == map[] && NewSamples(job, sink, {}) == map[];
    assert sink.cards + map[] == sink.cards && sink.samples + map[] == sink.samples;
  }

  /** A card of the primary with another path has another id. */
  lemma {:induction false} NotWantedYet(job: Job, sink: Tree, locators: seq<CardPath>, p: CardPath)
    requires UniqueIds(job.primary) && p in job.primary.cards && p !in locators
    ensures p.cardId !in Wanted(job, sink, locators)
  {
    if locators != [] {
      hide ValidName, HasCard;
      NotWantedYet(job, sink, locators[..|locators| - 1], p);
    }
  }

  lemma FilledStep(job: Job, sink: Tree, seen: set<CardPath>, p: CardPath)
    requires p !in seen && job.cardIo(p) && job.samplesIo(p) && ValidName(p.pkg) && !job.dryRun
    requires var mid := Filled(job, sink, seen);
             Pushable(job, mid, p) <==> Pushable(job, sink, p)
    ensures StepTree(job, Filled(job, sink, seen), p) == Filled(job, sink, seen + {p})
  {
    hide ValidName, Pushable, SamplesOf, NewCards, NewSamples;
    NewCardsStep(job, sink, seen, p);
    NewSamplesStep(job, sink, seen, p);
    if Pushable(job, sink, p) {
      AddAfter(sink.cards, NewCards(job, sink, seen), p, job.primary.cards[p]);
      if SamplesOf(job, p.cardId).Some? {
        AddAfter(sink.samples, NewSamples(job, sink, seen), p, SamplesOf(job, p.cardId).value);
      }
    }
  }

  lemma AddAfter(a: map<CardPath, string>, b: map<CardPath, string>, p: CardPath, v: string)
    ensures a + b[p := v] == (a + b)[p := v]
  {
  }

  lemma NewCardsStep(job: Job, sink: Tree, seen: set<CardPath>, p: CardPath)
    ensures var was := NewCards(job, sink, seen);
            NewCards(job, sink, seen + {p}) == if Pushable(job, sink, p) then was[p := job.primary.cards[p]] else was
  {
    hide ValidName, HasCard;
  }

  lemma NewSamplesStep(job: Job, sink: Tree, seen: set<CardPath>, p: CardPath)
    ensures var was := NewSamples(job, sink, seen);
            NewSamples(job, sink, seen + {p})
            == if Pushable(job, sink, p) && SamplesOf(job, p.cardId).Some?
               then was[p := SamplesOf(job, p.cardId).value] else was
  {
    hide Pushable, SamplesOf;
  }

  // ----- when samples are complete -----

  ghost predicate HasSamples(t: Tree, cardId: string) {
    exists q | q in t.samples :: q.cardId == cardId
  }

  lemma SamplesOfOwnCard(job: Job, p: CardPath)
    requires UniqueIds(job.primary) && FindsCards(job.primary, job.found)
    requires p in job.primary.cards && SamplesOf(job, p.cardId).Some?
    ensures ValidName(p.cardId) && p in job.primary.samples && job.readSamples(p)
    ensures SamplesOf(job, p.cardId) == Some(job.primary.samples[p])
  {
    hide ValidName;
    PathOfUnique(job.primary, p);
  }

  /** A full backfill of a working sink brings a card's samples exactly when it brings
      the card, and then text for text. */
  lemma SamplesComeWithCard(job: Job, s: Sweep, pkgReads: string -> bool, locators: seq<CardPath>, p: CardPath)
    requires UniqueIds(job.primary) && FindsCards(job.primary, job.found) && !job.dryRun && Healthy(job, locators)
    requires Lists(job.primary, pkgReads, locators)
    requires p in job.primary.cards && SamplesOf(job, p.cardId).Some?
    ensures var after, pushed := SweepAll(job, s, locators).sink, Pushable(job, s.sink, p) && pkgReads(p.pkg);
            && (HasSamples(after, p.cardId) <==> HasSamples(s.sink, p.cardId) || pushed)
            && (pushed ==> p in after.samples && after.samples[p] == job.primary.samples[p])
  {
    hide UniqueIds, ValidName, Pushable, SamplesOf, Healthy, SweepAll;
    forall i | 0 <= i < |locators|
      ensures locators[i] in job.primary.cards
    {
      ListedIsCard(job.primary, pkgReads, locators, i);
    }
    BackfillFills(job, s, locators);
    SamplesOfOwnCard(job, p);
    NameNotEmpty(p.cardId);
    var after := SweepAll(job, s, locators).sink;
    if Pushable(job, s.sink, p) && pkgReads(p.pkg) {
      assert p in locators;
      assert p in NewSamples(job, s.sink, Members(locators));
      assert p in after.samples;
    }
    if HasSamples(after, p.cardId) {
      var q :| q in after.samples && q.cardId == p.cardId;
      if q !in s.sink.samples {
        assert q in NewSamples(job, s.sink, Members(locators));
        SameIdSamePath(job.primary, p, q);
      }
    }
    if HasSamples(s.sink, p.cardId) {
      var q :| q in s.sink.samples && q.cardId == p.cardId;
      assert q in after.samples;
    }
  }

  lemma NameNotEmpty(id: string)
    requires ValidName(id)
    ensures id != ""
  {
  }

  lemma SameIdSamePath(t: Tree, p: CardPath, q: CardPath)
    requires UniqueIds(t) && p in t.cards && q in t.cards && p.cardId == q.cardId
    ensures p == q
  {
  }

  /** The primary has readable samples for this card. */
  ghost predicate Sampled(job: Job, p: CardPath) {
    p in job.primary.cards && SamplesOf(job, p.cardId).Some?
  }

  /** After a backfill of a working sink every readable samples file of the primary is on
      the sink exactly when the sink had it or lacked the card itself, and then the card
      and its package could be read. */
  lemma SamplesCompleteExactly(job: Job, s: Sweep, pkgReads: string -> bool, locators: seq<CardPath>)
    requires UniqueIds(job.primary) && FindsCards(job.primary, job.found) && !job.dryRun && Healthy(job, locators)
    requires Lists(job.primary, pkgReads, locators)
    ensures (forall p | Sampled(job, p) :: HasSamples(SweepAll(job, s, locators).sink, p.cardId))
       <==> forall p | Sampled(job, p) ::
              || HasSamples(s.sink, p.cardId)
              || (!HasCard(s.sink, p.cardId) && job.readCard(p) && pkgReads(p.pkg))
  {
    hide UniqueIds, ValidName, SamplesOf, SweepAll, HasSamples, HasCard;
    forall p | Sampled(job, p)
      ensures HasSamples(SweepAll(job, s, locators).sink, p.cardId)
         <==> || HasSamples(s.sink, p.cardId)
              || (!HasCard(s.sink, p.cardId) && job.readCard(p) && pkgReads(p.pkg))
    {
      SamplesComeWithCard(job, s, pkgReads, locators, p);
      SamplesOfOwnCard(job, p);
      NameNotEmpty(p.cardId);
      if pkgReads(p.pkg) {
        assert p in locators;
        var i :| 0 <= i < |locators| && locators[i] == p;
        assert job.lookup(locators[i]);
      }
    }
  }

  /** A primary of one card with samples. */
  ghost predicate OneSampledCard(job: Job, p: CardPath) {
    && !job.dryRun && ValidName(p.pkg) && ValidName(p.cardId) && job.readCard(p) && job.readSamples(p)
    && job.primary.cards.Keys == {p} && job.primary.samples.Keys == {p} && job.cardIo(p)
    && job.lookup(p) && job.found(p.cardId) == p
  }

  /** Samples that failed once are never retried: the card arrived, so the next
      backfill, of a sink that works again, skips it and leaves it without samples. */
  lemma FailedSamplesStayMissing(job: Job, again: Job, p: CardPath, stats: Stats)
    requires OneSampledCard(job, p) && !job.samplesIo(p) && OneSampledCard(again, p) && again.samplesIo(p)
    requires again.primary == job.primary
    ensures var once := SweepAll(job, Sweep(EMPTY_TREE, stats, EMPTY_REPORT), [p]);
            var twice := SweepAll(again, once.(report := EMPTY_REPORT), [p]);
            && once.report == Report([p.cardId], [], [SamplesFailed(p.cardId)], [])
            && twice.report == Report([], [p.cardId], [], []) && twice.sink == once.sink
            && p in twice.sink.cards && !HasSamples(twice.sink, p.cardId)
  {
    hide ValidName;
    var start := Sweep(EMPTY_TREE, stats, EMPTY_REPORT);
    OneIsSampled(job, p);
    StepIs(job, start, p);
    OneStep(job, start, p);
    var once := SweepAll(job, start, [p]);
    assert once.sink.cards == map[p := job.primary.cards[p]] && once.sink.samples == map[];
    assert HasCard(once.sink, p.cardId);
    assert NonePushable(again, once.sink, [p]);
    SkipsAllExactly(again, once.(report := EMPTY_REPORT), [p]);
    assert Ids([p]) == [p.cardId];
  }

  lemma OneStep(job: Job, s: Sweep, p: CardPath)
    ensures SweepAll(job, s, [p]) == SweepOne(job, s, p)
  {
    hide SweepOne;
    assert [p][..0] == [];
    NothingSwept(job, s);
  }

  lemma OneIsSampled(job: Job, p: CardPath)
    requires OneSampledCard(job, p)
    ensures SamplesOf(job, p.cardId) == Some(job.primary.samples[p]) && Pushable(job, EMPTY_TREE, p)
  {
    hide ValidName;
    assert p in job.primary.cards;
  }

  // ----- counters -----

  function CardFailures(failed: seq<Failure>): nat {
    if failed == [] then 0
    else CardFailures(failed[..|failed| - 1]) + if failed[|failed| - 1].CardFailed? then 1 else 0
  }

  function Tally(ok: nat, err: nat, start: Counter): Counter {
    Counter(start.ok + ok, start.err + err)
  }

  lemma CardFailuresSnoc(failed: seq<Failure>, f: Failure)
    ensures CardFailures(failed + [f]) == CardFailures(failed) + if f.CardFailed? then 1 else 0
  {
    assert (failed + [f])[..|failed|] == failed;
  }

  lemma {:induction false} CardFailuresBounded(failed: seq<Failure>)
    ensures CardFailures(failed) <= |failed|
  {
    if failed != [] {
      CardFailuresBounded(failed[..|failed| - 1]);
    }
  }

  ghost predicate CountsAgree(uri: string, before: Stats, after: Stats, r: Report) {
    && CardFailures(r.failed) <= |r.failed|
    && CountOf(after, uri, KCreated) == Tally(|r.pushed|, CardFailures(r.failed), CountOf(before, uri, KCreated))
    && CountOf(after, uri, KSamples)
       == Tally(|r.pushedSamples|, |r.failed| - CardFailures(r.failed), CountOf(before, uri, KSamples))
  }

  /** The sink's counters move by exactly what the report lists. */
  lemma {:induction false} ReportMatchesCounters(job: Job, sink: Tree, stats: Stats, locators: seq<CardPath>)
    requires !job.dryRun
    ensures var after := SweepAll(job, Sweep(sink, stats, EMPTY_REPORT), locators);
            CountsAgree(job.uri, stats, after.stats, after.report)
  {
    if locators != [] {
      hide ValidName, SweepOne, Pushable, SamplesOf, StepTree, CountsAgree, Record;
      var n := |locators| - 1;
      ReportMatchesCounters(job, sink, stats, locators[..n]);
      var mid := SweepAll(job, Sweep(sink, stats, EMPTY_REPORT), locators[..n]);
      StepIs(job, mid, locators[n]);
      CountsStep(job, mid, locators[n], stats);
    }
  }

  lemma CountsStep(job: Job, s: Sweep, p: CardPath, before: Stats)
    requires !job.dryRun && CountsAgree(job.uri, before, s.stats, s.report)
    ensures var after := SweepOne(job, s, p); CountsAgree(job.uri, before, after.stats, after.report)
  {
    hide ValidName, Pushable, SamplesOf, Accepts, Delivered, CountsAgree, Record;
    if Pushable(job, s.sink, p) {
      var id := p.cardId;
      var ev := Created(p.pkg, id, job.primary.cards[p]);
      var ok := Accepts(s.sink, ev, job.cardIo(p));
      CountsCard(job.uri, before, s.stats, s.report, id, ok);
      if ok && SamplesOf(job, id).Some? {
        var ok2 := Accepts(Delivered(s.sink, ev, job.cardIo(p)), SamplesWritten(id, SamplesOf(job, id).value),
          job.samplesIo(p));
        CountsSamples(job.uri, before, Record(s.stats, job.uri, KCreated, ok),
          s.report.(pushed := s.report.pushed + [id]), id, ok2);
      }
    } else {
      CountsSkip(job.uri, before, s.stats, s.report, p.cardId);
    }
  }

  lemma CountsSkip(uri: string, before: Stats, now: Stats, r: Report, id: string)
    requires CountsAgree(uri, before, now, r)
    ensures CountsAgree(uri, before, now, r.(skipped := r.skipped + [id]))
  {
  }

  lemma CountsCard(uri: string, before: Stats, now: Stats, r: Report, id: string, ok: bool)
    requires CountsAgree(uri, before, now, r)
    ensures CountsAgree(uri, before, Record(now, uri, KCreated, ok),
              if ok then r.(pushed := r.pushed + [id]) else r.(failed := r.failed + [CardFailed(id)]))
  {
    CardFailuresSnoc(r.failed, CardFailed(id));
  }

  lemma CountsSamples(uri: string, before: Stats, now: Stats, r: Report, id: string, ok: bool)
    requires CountsAgree(uri, before, now, r)
    ensures CountsAgree(uri, before, Record(now, uri, KSamples, ok),
              if ok then r.(pushedSamples := r.pushedSamples + [id]) else r.(failed := r.failed + [SamplesFailed(id)]))
  {
    CardFailuresSnoc(r.failed, SamplesFailed(id));
  }
}

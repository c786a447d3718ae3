# A verified model of algocline's sessions, card store and state store

algocline runs Lua strategies whose execution pauses whenever they ask the host
for LLM replies, keeps their results as append-only "cards" with a query
language and a lineage graph, and keeps small values in a key/value store. This
project states what those parts do as Dafny definitions and proves, for all
inputs, all reachable states or all interleavings, what the code and its
documentation rely on.

## The modules

- **Cards.** `Calendar` and `Timestamps` are the date arithmetic behind card
  ids. `Json`, `Toml`, `StableJson` and `Samples` are values and their text
  forms; `WhereDsl` compiles and evaluates `where` clauses; `Sorting` and `Find`
  are the two query paths; `Lineage` is the bounded graph walk. `CardStore`,
  `CardEvents`, `CardDocs`, `Aliases`, `CardService` and `Backfill` are the store, the
  events it publishes and the sinks that mirror it.
- **Sessions.** `Execution` is the join barrier and the state machine, `Metrics`
  the observer, `Sessions` one session. `SessionRuns` and `SessionRounds` prove
  what every run and every round of it keeps; `Registry` lets many callers and
  the reaper interleave.
- **State.** `StateStore` is the two-layer file store, `StateConcurrency` its
  writers under per-file locks with crashes, `StateReset` the reset with backup.

What the source updates in place is a class or a loop here: the lineage walk,
the card store, sinks and bus, the session with its state machine and observer,
the state store, the parsers and printers. Each such method is proved equal to
a function on values, and the theorems are about that function.

## Modelling choices

- Files are maps from names to whole texts; a write that is not atomic in the
  source is several steps here. The order in which a directory lists its files
  and a map its keys is arbitrary. TOML and JSON text are codecs with the one
  property that what is written parses back, for the values the program writes.
- Whether storage works is a parameter of each operation: listing, reading and
  writing on the primary, lookups and writes on a sink, writes of the state store.
  A failed write leaves the live file as it was, except that an import copies card
  files in place and may leave part of one. The clock, generated ids and hashes are
  parameters too.
- Floats are exact rational numbers. A JSON integer is any `i64` or `u64`, a TOML
  integer an `i64`; day arithmetic is 64-bit with truncating division and the year
  is narrowed to 32 bits. Other integers are unbounded.
- `sort_by` is specified as the unique stable sort. It agrees with the source
  wherever the comparator is a total preorder, which the theorems either prove or require.
- Lua is a free choice of its next batch or of how it ends. Reply channels are
  numbered in the order their queries are issued.
- The source does not check that a card id is used in one package only. A lookup
  by id may find any file of that id, in the primary and in each sink for itself;
  theorems that need unique ids say so, and `CardEvents.AppendFollowsExactly` and
  `Lineage.SameLinksExactly` say what depends on it. Nor are the ids of one batch
  checked to be distinct (`SessionRuns.BatchKeepsNumbers`).

## Where the code and its documentation differ

- Time-stamped ids sort chronologically only before the year 10000
  (`Timestamps.StringSortIsChronological`).
- An up-walk's `truncated` ignores the relation filter in its last check
  (`Lineage.AscentTruncation`, `Lineage.TruncatedThoughNothingMore`).
- `find` without `where` and with `where = {}` order cards that tie, and cards that lack
  a sort field, differently (`Find.KeyListPathsAgree`, `Find.MissingFieldDiverges`,
  `Find.TieDiverges`).
- Sinks are not "byte-for-byte" equal after an import that fails half-way or copies a
  file not named by the valid id it reports (`CardStore.ImportIsMirrored`,
  `CardStore.BrokenImportDiverges`, `CardStore.OddNameIsNotAnnounced`), nor after an
  append to an id that two packages hold (`CardEvents.AppendFollowsExactly`).
- Such an append may also overwrite a card with another one's fields
  (`CardDocs.StoredFieldsNeverChange`, `CardDocs.FieldIsLost`).
- A backfill reports a card as skipped, and not as failed, when the sink cannot be
  searched, so a report without failures does not mean that nothing is missing
  (`Backfill.NothingLeftBehind`, `Backfill.FailedLookupLeavesBehind`).
- A backfill mirrors samples only for cards it has just pushed, so samples that
  failed once are never retried (`Backfill.SamplesCompleteExactly`,
  `Backfill.FailedSamplesStayMissing`).
- `stable_json` does not escape strings; its text determines the value where no
  string holds a quote (`StableJson.TextDeterminesValue`, `StableJson.TextIsNotInjective`).
- A response the session rejects still overwrites the transcript
  (`SessionRounds.RejectedFeedChanges`, `SessionRounds.RejectedFeedOverwrites`).
- `keys` does not list keys that have a file of their own, and the first
  `delete` of a key may uncover an older value (`StateStore.JsonFileStore.Keys`,
  `StateStore.DeleteUncovers`).
- A delete is two critical sections. An increment that read a namespace value between
  them keeps that value alive, and a `set_nx` can find it present after it is gone
  (`StateConcurrency.SequentialExactly`, `StateConcurrency.RaceChangesResult`,
  `StateConcurrency.SetNxSeesTheDeleted`).
- A second reset replaces the backup by the file the first one wrote, so the original
  is kept only if the first reset changed nothing (`StateReset.SecondResetBackup`,
  `StateReset.OriginalIsLost`).

## Model

| member | source | states |
|---|---|---|
| `Calendar.WideCivilIsExact` | `crates/algocline-engine/src/card.rs:346-358` | in 64-bit arithmetic the closed form gives a valid Gregorian date whose independently counted day number is the input, for every day number that does not overflow |
| `Calendar.CivilFromDaysExact` | `crates/algocline-engine/src/card.rs:346-358` | with the year narrowed to 32 bits the date is right if and only if the true year fits 32 bits |
| `Calendar.CivilRoundTrip` | `crates/algocline-engine/src/card.rs:346-358` | every valid date with a 32-bit year is the image of its own day number |
| `Calendar.CivilStartsAtEpoch` | `crates/algocline-engine/src/card.rs:346-358` | day number zero is 1970-01-01, so that with the step to the next day the whole conversion is fixed |
| `Calendar.CivilStepsThroughCalendar` | `crates/algocline-engine/src/card.rs:346-358` | the date of the next day number is the next calendar day (leap years, month ends, year ends) |
| `Calendar.CivilOrder` | `crates/algocline-engine/src/card.rs:346-358` | later day numbers give later dates |
| `Calendar.NextDayIsValid` | `crates/algocline-engine/src/card.rs:346-358` | the calendar the closed form is held against: the successor of a valid date is valid and one day number on |
| `Timestamps.Ordered` | `crates/algocline-engine/src/card.rs:311-343` | before the year 10000 an earlier clock reading has the lexicographically smaller text, in both renderings |
| `Timestamps.FixedLengthAndInjective` | `crates/algocline-engine/src/card.rs:311-343` | before the year 10000 the texts are 15 and 20 characters long and tell any two seconds apart |
| `Timestamps.StringSortIsChronological` | `crates/algocline-engine/src/card.rs:326-343` | "string sort = chronological order" holds up to a clock value if and only if that value lies before the year 10000 |
| `Timestamps.TurnOfYear` | `crates/algocline-engine/src/card.rs:326-343` | the two readings around the turn to the year 10000 sort the wrong way round |
| `WhereDsl.ParseWhere` | `crates/algocline-engine/src/card.rs:1049-1124` | a `where` value compiles exactly when it is well formed, and the compiled predicate evaluates on every card as a direct reading of the value says |
| `WhereDsl.ParsePredicate` | `crates/algocline-engine/src/card.rs:1053-1124` | compiling under a path prefix, keys in any order, means what the value says of the sub-document at that prefix |
| `WhereDsl.ParseEntry` | `crates/algocline-engine/src/card.rs:1060-1117` | the clauses of one key (`_and`, `_or`, `_not`, operator object, nested section, literal) are accepted and hold exactly as that key says |
| `WhereDsl.ParseOperators` | `crates/algocline-engine/src/card.rs:1038-1043` | an operator object compiles to the conjunction of its operators at that path |
| `WhereDsl.KeysAreConjuncts` | `crates/algocline-engine/src/card.rs:1053-1124` | `{}` is true of everything; several keys are the conjunction of one-key clauses, so key order is irrelevant |
| `WhereDsl.MissingIsNonObject` | `crates/algocline-engine/src/card.rs:1127-1134` | a missing section is treated like any value that is not an object |
| `WhereDsl.PrefixIsSubDocument` | `crates/algocline-engine/src/card.rs:1053-1134` | parsing at a prefix equals parsing at the root against the sub-document, or against a non-object when there is none |
| `WhereDsl.NegatedOperators` | `crates/algocline-engine/src/card.rs:1161-1219` | `ne` complements `eq` always; `nin`, `gte`, `lte` complement their partners exactly under the stated conditions |
| `WhereDsl.MissingField` | `crates/algocline-engine/src/card.rs:1161-1219` | on a missing field only `ne`, `nin` and `exists = false` hold |
| `Json.FetchSnoc` | `crates/algocline-engine/src/card.rs:1127-1134` | fetching one path element more is one more step into the fetched value |
| `Find.ProjectionsAgree` | `crates/algocline-engine/src/card.rs:689-729` | the light and the full projection of one file agree if and only if the summary fields have the types the light path reads |
| `Find.List` | `crates/algocline-engine/src/card.rs:732-753` | listing is the stable newest-first sort of the readable summaries |
| `Find.FindWithStore` | `crates/algocline-engine/src/card.rs:1426-1481` | a query returns the requested page of its light or full pipeline |
| `Find.LightOrderIsPreorder` | `crates/algocline-engine/src/card.rs:1394-1418` | the summary comparator is a total preorder for every key list |
| `Find.KeyOrdersAgree` | `crates/algocline-engine/src/card.rs:1355-1418` | on typed fields the two comparators agree on one key if and only if both rows or neither have the field (always for the pass rate) |
| `Find.FullPathSortsSummaries` | `crates/algocline-engine/src/card.rs:1306-1372` | the full path with the empty `where` is one sort of the summaries by the light comparator |
| `Find.LightPathAgreesWithFullPath` | `crates/algocline-engine/src/card.rs:1386-1481` | the special case of fields present in all cards or in none: the paths agree if and only if there are no sort keys or files that tie are scanned newest first |
| `Find.KeyListPathsAgree` | `crates/algocline-engine/src/card.rs:1386-1481` | for typed sort keys, any number, on every store: no `where` and `where = {}` return the same pages if and only if there are no keys, or no two cards that tie on some keys differ in having the next one's field and cards that tie on all are scanned newest first |
| `Find.MixedNeverAgree` | `crates/algocline-engine/src/card.rs:1355-1418` | where two cards tie on some keys and one of them lacks the next one's field, the two paths return different lists |
| `Find.FullPathSortsMissingLast` | `crates/algocline-engine/src/card.rs:1306-1372` | with keys the full path is one stable sort that puts cards without a field last |
| `Find.MissingFieldDiverges` | `crates/algocline-engine/src/card.rs:1355-1418` | a two-card store where the paths differ because one card lacks the field |
| `Find.TieDiverges` | `crates/algocline-engine/src/card.rs:1426-1481` | a two-card store where the paths differ on a tie |
| `Find.NoTiesPathsAgree` | `crates/algocline-engine/src/card.rs:1386-1481` | without ties on the sort keys the two paths return the same rows in the same order |
| `Find.StringsCompose` | `crates/algocline-engine/src/card.rs:1138-1149` | string comparison is antisymmetric and composes |
| `Sorting.SortIsStable` | `crates/algocline-engine/src/card.rs:747-751` | the sort used is sorted and keeps ties in arrival order |
| `Sorting.StableSortIsUnique` | `crates/algocline-engine/src/card.rs:1460-1470` | a list has only one stable sort, so the specification pins the result |
| `Sorting.ResortAgrees` | `crates/algocline-engine/src/card.rs:1429-1438` | sorting after an earlier sort gives the same rows if and only if the earlier one moved no row past a tie |
| `Sorting.SortCommutes` | `crates/algocline-engine/src/card.rs:1460-1478` | sorting commutes with a projection under which the comparators agree |
| `Sorting.PagesDetermineRows` | `crates/algocline-engine/src/card.rs:1472-1478` | two lists have the same pages for all offsets and limits if and only if they are the same list |
| `StableJson.StableJsonInto` | `crates/algocline-engine/src/card.rs:243-279` | the recursive printer appends exactly the specified text to its buffer |
| `StableJson.StableObjectInto` | `crates/algocline-engine/src/card.rs:243-279` | object fields are printed in key order, separated by commas |
| `StableJson.TextIsCanonical` | `crates/algocline-engine/src/card.rs:238-279` | values that differ only in object key order, at any depth, print to the same text |
| `StableJson.TextDeterminesValue` | `crates/algocline-engine/src/card.rs:238-279` | unique readability: among values whose strings and keys hold no quote, two have the same text if and only if they differ in object key order alone |
| `StableJson.TextIsNotInjective` | `crates/algocline-engine/src/card.rs:238-279` | with a quote inside a string two different values share one text, so the condition of unique readability is needed |
| `Toml.JsonToToml` | `crates/algocline-engine/src/card.rs:362-395` | conversion fails on a top-level null and on nothing else |
| `Toml.RoundTrip` | `crates/algocline-engine/src/card.rs:362-415` | converting to TOML and back removes exactly the nulls if and only if every integer fits 64 bits |
| `Samples.RenderSamples` | `crates/algocline-engine/src/card.rs:1953-1960` | one JSON line per sample, in order |
| `Samples.ReadSamples` | `crates/algocline-engine/src/card.rs:2001-2036` | the loop returns filter, then drop, then take, and fails exactly when it reaches an unreadable line before it has seen one match beyond the page |
| `Samples.WriteThenRead` | `crates/algocline-engine/src/card.rs:1928-2036` | reading what was written returns filter, drop, take of the samples, and the samples themselves without filter and page |
| `Samples.PagesJoin` | `crates/algocline-engine/src/card.rs:2001-2036` | consecutive pages concatenate to a prefix of the rows, and to all of them once there are enough |
| `Lineage.LoadCardIndex` | `crates/algocline-engine/src/card.rs:1622-1638` | one pass over the rows builds the id index and its inversion by `prior_card_id`, children in scan order |
| `Lineage.SameLinksExactly` | `crates/algocline-engine/src/card.rs:1622-1638` | the inverted index and the cards agree on links if and only if rows of one id name the same prior |
| `Lineage.UniqueIdsAgree` | `crates/algocline-engine/src/card.rs:1622-1638` | with unique ids they agree |
| `Lineage.Walk.WalkUp` | `crates/algocline-engine/src/card.rs:1671-1710` | the ascent is the chain of filter-passing, not yet visited priors up to the depth limit; `truncated` as the final check says |
| `Lineage.Walk.WalkDown` | `crates/algocline-engine/src/card.rs:1714-1772` | level d of the descent lists exactly the cards of distance d, each once, on any graph; `truncated` is set exactly when distance max_depth + 1 is inhabited |
| `Lineage.Walk.VisitChildren` | `crates/algocline-engine/src/card.rs:1720-1744` | one parent contributes exactly its unlisted filter-passing children |
| `Lineage.Walk.VisitLevel` | `crates/algocline-engine/src/card.rs:1718-1749` | one level contributes exactly the unlisted children of the frontier, which become the next frontier |
| `Lineage.Walk.AnyUnvisitedChild` | `crates/algocline-engine/src/card.rs:1753-1771` | the final check finds a child iff some filter-passing child of the frontier is unvisited |
| `Lineage.Lineage` | `crates/algocline-engine/src/card.rs:1775-1813` | nothing is returned exactly when no card has the id; otherwise the result is the ascent and descent the direction asks for |
| `Lineage.LineageIsTree` | `crates/algocline-engine/src/card.rs:1671-1813` | for every direction, depth and filter: nodes distinct, root first at depth 0, one edge fewer than nodes, every edge a real filter-passing child-to-prior link to an earlier node one level nearer |
| `Lineage.LayerIsShortestDistance` | `crates/algocline-engine/src/card.rs:1714-1772` | a level holds exactly the cards whose shortest chain has that length, cycles included |
| `Lineage.DescentIsExact` | `crates/algocline-engine/src/card.rs:1714-1772` | a card is listed at depth d iff its prior chain first meets the root after d <= max_depth filter-passing links |
| `Lineage.DescentTruncation` | `crates/algocline-engine/src/card.rs:1714-1772` | `truncated` iff some card first meets the root one link beyond the limit; if not set no greater depth lists more |
| `Lineage.AscentIsOneChain` | `crates/algocline-engine/src/card.rs:1671-1710` | up-walk depths run -1, -2, ... along one chain of prior links |
| `Lineage.AscentIsExact` | `crates/algocline-engine/src/card.rs:1671-1710` | a card is listed at depth -d iff it is the root's d-th ancestor over filter-passing links, d is within the limit and no ancestor up to it repeats |
| `Lineage.DeeperChangesNothing` | `crates/algocline-engine/src/card.rs:1671-1710` | if one level more lists nothing new, no depth does |
| `Lineage.AscentTruncation` | `crates/algocline-engine/src/card.rs:1671-1710` | read off the store: the ascent's `truncated` is set iff the depth-limit ancestor exists unrepeated and names an indexed card not yet listed; a deeper ascent lists more iff moreover that card's own relation passes the filter; so the flag is right iff there is no such card or its relation passes |
| `Lineage.TruncatedThoughNothingMore` | `crates/algocline-engine/src/card.rs:1671-1710` | a two-card store where the flag is set although no depth lists more |
| `CardEvents.FileCardStore.FindCardLocator` | `crates/algocline-engine/src/card.rs:2365-2382` | an id is found iff it is a valid name and some package holds it, an error iff it is no valid name or the root cannot be listed; the file found is one of that id, whichever of several |
| `CardEvents.FileCardStore.ListCardLocators` | `crates/algocline-engine/src/card.rs:2393-2437` | the listing holds every card of the readable packages, each once; it fails only with the root directory |
| `CardEvents.FileCardStore.WriteNewCard` | `crates/algocline-engine/src/card.rs:2341-2353` | a new card is written iff its package name is valid, the package has no such card and the write works; otherwise nothing changes |
| `CardEvents.FileCardStore.OverwriteCard` | `crates/algocline-engine/src/card.rs:2355-2363` | the text of the file found is replaced iff there is one and lookup and write work; nothing else changes |
| `CardEvents.FileCardStore.WriteSamplesText` | `crates/algocline-engine/src/card.rs:2526-2537` | samples are written beside the file found iff there is one, it has none, and lookup and write work; nothing else changes |
| `CardEvents.FileCardStore.ImportFromDir` | `crates/algocline-engine/src/card.rs:2549-2606` | first writer wins; the first file that cannot be read, parsed or copied stops the import with what was copied so far, its own unfinished copy included, left in place; ids are reported with every ".toml" trimmed |
| `CardEvents.FileCardSubscriber.OnEvent` | `crates/algocline-engine/src/card.rs:2945-3000` | a sink applies an event, to a file its own lookup finds where the event names an id only, or reports failure and keeps its state |
| `CardEvents.FileCardSubscriber.HasCardId` | `crates/algocline-engine/src/card.rs:2930-3011` | whether the sink holds an id; an error exactly for invalid names and a root that cannot be listed |
| `CardEvents.LandsOneWay` | `crates/algocline-engine/src/card.rs:2945-3000` | a create or alias event has one outcome on every sink; an append or samples event has one where the id has one file |
| `CardEvents.AppendFollowsExactly` | `crates/algocline-engine/src/card.rs:2902-3000` | an equal sink surely follows an append, whichever files the two lookups find, if and only if the id has one file or every file of it holds the new text already |
| `CardEvents.CardEventBus.Publish` | `crates/algocline-engine/src/card.rs:3262-3282` | every sink gets the event once in order; failures stay with the sink and are counted |
| `CardEvents.CardEventBus.PublishTo` | `crates/algocline-engine/src/card.rs:3287-3312` | one sink gets the event and the caller learns the outcome |
| `CardEvents.OthersUncounted` | `crates/algocline-engine/src/card.rs:2765-2787` | deliveries leave the counters of other sinks and kinds alone |
| `CardEvents.DeliveriesAreCounted` | `crates/algocline-engine/src/card.rs:2765-2787` | each delivery moves its own sink's counter by one, as success or failure |
| `CardStore.WriteIsMirrored` | `crates/algocline-engine/src/card.rs:557-636` | the event of a create, append, samples or alias write takes an equal sink to the primary's new state, when both look an id up at the same file |
| `CardStore.CopyAllOnlyAdds` | `crates/algocline-engine/src/card.rs:2549-2606` | an import, even one that fails half-way, leaves every existing card and sample as it was; one that works adds exactly the imported cards |
| `CardStore.ImportIsPredicted` | `crates/algocline-engine/src/card.rs:2549-2606` | read off package and source before the call: the import succeeds iff no failing file is reached whose card the package lacks, and it copies exactly the importable files not held that come before the first such file |
| `CardStore.ImportReplay` | `crates/algocline-engine/src/card.rs:1877-1921` | the import events replayed on the old state add exactly the imported cards whose ids are valid names, where files are named by their ids |
| `CardStore.ImportIsMirrored` | `crates/algocline-engine/src/card.rs:1877-1921` | an import keeps a sink equal if and only if, judged from the source files and the package before the call, it leaves nothing behind, or meets no failing file and takes only files named by the valid id they are reported under |
| `CardStore.BrokenImportDiverges` | `crates/algocline-engine/src/card.rs:1877-1921` | a good file followed by a broken one: the primary keeps a card that no sink hears of |
| `CardStore.OddNameIsNotAnnounced` | `crates/algocline-engine/src/card.rs:1877-1921` | a file "x.toml.toml" is imported as card "x.toml" but reported as "x": the import succeeds and no sink hears of the card |
| `CardStore.PlainImportKeepsOwned` | `crates/algocline-engine/src/card.rs:2549-2606` | where every file left is named by its reported id, samples belong to cards and the old cards keep exactly theirs |
| `CardStore.RunIsMirrored` | `crates/algocline-engine/src/card.rs:2902-3000` | over any sequence of create, append, samples, alias and clean import commands with unique ids, a sink that starts equal and never fails ends equal, text for text |
| `CardDocs.MergeFields` | `crates/algocline-engine/src/card.rs:771-813` | an append is refused iff it names a key that is already set; otherwise the fields are added, nulls dropped |
| `CardDocs.ReadsBackAsWritten` | `crates/algocline-engine/src/card.rs:362-415` | a value reads back from TOML as written iff it has no null and no integer beyond 64 bits |
| `CardDocs.StoredFieldIsStable` | `crates/algocline-engine/src/card.rs:362-415` | every field of a stored document reads back unchanged when the document is rewritten |
| `CardDocs.AppendKeepsFields` | `crates/algocline-engine/src/card.rs:771-813` | after an append every earlier top-level field reads back unchanged, and the stored document is the returned one iff the added fields survive TOML |
| `CardDocs.CreateKeepsInput` | `crates/algocline-engine/src/card.rs:557-636` | in the stored text: every input field except the fingerprint and an unusable id is there iff it is not null, with its value iff that holds no null and no integer beyond 64 bits; id and fingerprint are what create says |
| `CardDocs.StoredFieldsNeverChange` | `crates/algocline-engine/src/card.rs:557-636` | over any run, the two lookups of an append free to differ: every step keeps every stored top-level field of every card if and only if each append carries over the fields of the file it overwrites; then the last state has all fields of the first |
| `CardDocs.StepKeepsExactly` | `crates/algocline-engine/src/card.rs:771-813` | one step keeps the fields of all cards if and only if an append's read document and added fields include those of the file it overwrites |
| `CardDocs.OneFileCarriesOver` | `crates/algocline-engine/src/card.rs:771-813` | with unique ids, or whenever both lookups find the same file, they do |
| `CardDocs.FieldIsLost` | `crates/algocline-engine/src/card.rs:771-813` | two packages hold one id: an append that reads one file and writes the other takes a stored field away |
| `Aliases.TableReadsBack` | `crates/algocline-engine/src/card.rs:893-914` | writing the alias table and reading it gives it back, entry for entry |
| `Aliases.SetBindsOneName` | `crates/algocline-engine/src/card.rs:845-888` | setting an alias binds its name to the new entry and no other name to anything else |
| `Aliases.AliasSetResolves` | `crates/algocline-engine/src/card.rs:845-888` | the stored table resolves the name to the new entry and every other name as before; cards and samples are untouched |
| `CardService.CardService.CreateCard` | `crates/algocline-engine/src/card.rs:557-636` | create writes the enriched document or changes nothing, failing writes included, and every sink gets exactly the published events, ids unique or not |
| `CardService.CardService.AppendFields` | `crates/algocline-engine/src/card.rs:771-813` | a rejected or failing append changes nothing anywhere; an accepted one merges into a document of that id, returns it, stores it under that id and publishes it; with unique ids store and sinks take the one outcome there is |
| `CardService.CardService.WriteSampleLines` | `crates/algocline-engine/src/card.rs:1928-1977` | samples are stored once, as lines beside a card of that id, and published iff stored; a failing lookup or write changes nothing |
| `CardService.CardService.AliasSet` | `crates/algocline-engine/src/card.rs:845-888` | the alias table is rewritten and published iff the name is valid, the card exists and lookup, read and write work |
| `CardService.CardService.ImportCards` | `crates/algocline-engine/src/card.rs:1877-1921` | import stores what it copied, reports success iff the source opens and no failing file was met, and announces only then |
| `CardService.CardService.ReadBackImports` | `crates/algocline-engine/src/card.rs:1877-1921` | the announced events are, for each imported id, the text and the samples that a lookup of that id finds, as far as they can be read |
| `CardService.HealthySinkTakesAll` | `crates/algocline-engine/src/card.rs:3262-3282` | a sink that never fails ends with all events applied |
| `CardService.CommandIsFollowed` | `crates/algocline-engine/src/card.rs:3262-3282` | after any command that leaves ids unique and files named by them, sinks that held no card beyond the primary have taken its events in the one way there is, and still hold none |
| `CardService.FetchedOneWay` | `crates/algocline-engine/src/card.rs:1877-1921` | with unique ids the announced texts are those of the imported files |
| `Backfill.CardSinkBackfill` | `crates/algocline-engine/src/card.rs:3474-3568` | a backfill of a registered sink lists every card of the readable packages and sweeps that listing card by card; unknown sinks and an unreadable root are refused; other sinks are untouched |
| `Backfill.BackfillOne` | `crates/algocline-engine/src/card.rs:3491-3565` | one card is skipped (also where the sink's own lookup fails), listed, pushed or failed exactly by the stated rules, samples only after their card was pushed |
| `Backfill.HeldCardsUntouched` | `crates/algocline-engine/src/card.rs:3474-3568` | cards and samples the sink already held never change, whatever fails and however ids repeat |
| `Backfill.NothingLeftBehind` | `crates/algocline-engine/src/card.rs:3474-3568` | a backfill that reports no failure leaves every readable card with a valid id on the sink if and only if the sink's lookup worked for each card it lacked (for one file of its id) |
| `Backfill.ArrivesExactly` | `crates/algocline-engine/src/card.rs:3474-3568` | after a run without failures the sink holds an id iff it held it or was asked for it with an answer |
| `Backfill.FailedLookupLeavesBehind` | `crates/algocline-engine/src/card.rs:3496-3511` | a sink whose root cannot be listed: the report shows a skipped card and no failure, and the sink stays empty |
| `Backfill.SecondRunPushesNothing` | `crates/algocline-engine/src/card.rs:3474-3568` | backfilling again after a run without failures skips every card and changes neither sink nor counters if and only if no card left behind is now found to be lacking |
| `Backfill.DryRunChangesNothing` | `crates/algocline-engine/src/card.rs:3532-3538` | a dry run changes neither the sink nor a counter |
| `Backfill.RealRunPushes` | `crates/algocline-engine/src/card.rs:3474-3568` | on a working sink the real run pushes the pushable ids, each once, and fails nothing |
| `Backfill.DryRunPredicts` | `crates/algocline-engine/src/card.rs:3474-3568` | the dry run lists the ids the real run pushes if and only if no two pushable cards share an id |
| `Backfill.BackfillFills` | `crates/algocline-engine/src/card.rs:3474-3568` | with unique ids the sink ends as what it held plus every readable card it lacked with its samples |
| `Backfill.SamplesComeWithCard` | `crates/algocline-engine/src/card.rs:3474-3568` | on a working sink a card's samples arrive iff the card itself is pushed in this run, and then text for text |
| `Backfill.SamplesCompleteExactly` | `crates/algocline-engine/src/card.rs:3474-3568` | after a backfill of a working sink every readable samples file of the primary is on it if and only if the sink had it, or lacked its card and that card and its package were readable |
| `Backfill.FailedSamplesStayMissing` | `crates/algocline-engine/src/card.rs:3552-3565` | a samples push that fails once is not made up for: the next backfill, of a sink that works again, skips the card and changes nothing |
| `Backfill.ReportMatchesCounters` | `crates/algocline-engine/src/card.rs:3474-3568` | the sink's counters move by exactly what the report lists |
| `Execution.CollectKeepsIds` | `crates/algocline-core/src/state.rs:37-46` | collecting a batch leaves one query per id; it is unchanged iff the ids are distinct |
| `Execution.RemainingCounts` | `crates/algocline-core/src/state.rs:67-73` | `remaining` is the number of unanswered queries and the length test says that none is left |
| `Execution.PendingQueries.constructor` | `crates/algocline-core/src/state.rs:37-46` | the barrier starts with the collected batch and no responses |
| `Execution.PendingQueries.Feed` | `crates/algocline-core/src/state.rs:49-58` | a response is recorded iff its id was issued and not answered; completion is reported exactly when every query is answered |
| `Execution.PendingQueries.Remaining` | `crates/algocline-core/src/state.rs:67-69` | the number of queries without a response |
| `Execution.PendingQueries.IntoOrderedResponses` | `crates/algocline-core/src/state.rs:77-86` | responses in issue order |
| `Execution.ExecutionState.Feed` | `crates/algocline-core/src/state.rs:132-141` | only a paused execution takes responses |
| `Execution.ExecutionState.TakeResponses` | `crates/algocline-core/src/state.rs:145-157` | the responses are handed out in issue order iff all are in, and the state becomes running; otherwise the state is put back |
| `Execution.ExecutionState.PauseOn` | `crates/algocline-core/src/state.rs:188-199` | a running execution pauses on the collected batch; any other state is left |
| `Execution.ExecutionState.CancelIt` | `crates/algocline-core/src/state.rs:202-213` | a running or paused execution is cancelled; any other state is left |
| `Execution.TerminalIsFinal` | `crates/algocline-core/src/state.rs:132-213` | no sequence of feeds and transitions leaves a terminal state |
| `Execution.RunStaysValid` | `crates/algocline-core/src/state.rs:132-213` | in every reachable state pending ids are distinct and responses belong to them |
| `Metrics.MetricsObserver.Paused` | `crates/algocline-core/src/metrics.rs:509-540` | one pause, one call and one unanswered transcript entry per query |
| `Metrics.MetricsObserver.ResponseFed` | `crates/algocline-core/src/metrics.rs:542-585` | the text goes to the newest entry of that id and nowhere else |
| `Metrics.LastIndexIs` | `crates/algocline-core/src/metrics.rs:557-561` | the search from the end finds the newest entry |
| `Sessions.Session.FeedOne` | `crates/algocline-engine/src/session.rs:479-521` | observer, channel and state machine are updated in that order, whether or not the feed is accepted |
| `Sessions.Session.WaitEvent` | `crates/algocline-engine/src/session.rs:419-462` | a batch opens one channel per query and pauses; an end completes or fails the session and hands out its metrics; outside the running state the transition is refused |
| `Sessions.Session.FailWith` | `crates/algocline-engine/src/session.rs:523-532` | a running session fails with the message and hands out its metrics |
| `Sessions.Session.SolePendingId` | `crates/algocline-engine/src/session.rs:768-784` | the open query id iff exactly one is open |
| `SessionRuns.RunKeepsInv` | `crates/algocline-engine/src/session.rs:419-521` | in every reachable state, rejected feeds included: open channels = remaining = unanswered transcript entries, calls = transcript length, pauses = rounds (+1 while paused), each issued query's channel has fired exactly once or is still open |
| `SessionRuns.FeedKeepsInv` | `crates/algocline-engine/src/session.rs:479-521` | one feed keeps the invariant and is accepted iff its query is open |
| `SessionRuns.WaitKeepsInv` | `crates/algocline-engine/src/session.rs:419-462` | one wait on a running session keeps the invariant and is never an invalid transition |
| `SessionRuns.FeedGoes` | `crates/algocline-core/src/metrics.rs:557-567` | a text for an id of the current batch lands on the current batch's entry although ids repeat across rounds |
| `SessionRuns.OpenIsAnswered` | `crates/algocline-engine/src/session.rs:495-507` | an accepted feed fires the query's own channel, once, and fills its own transcript entry |
| `SessionRuns.SolePendingCloses` | `crates/algocline-engine/src/session.rs:768-784` | feeding the sole pending id closes the round |
| `SessionRuns.BatchKeepsNumbers` | `crates/algocline-engine/src/session.rs:451-460` | pausing keeps the counts in step if and only if the batch ids are distinct |
| `SessionRounds.RoundReply` | `crates/algocline-engine/src/session.rs:479-521` | within a round a feed is accepted iff it is the first for an id of the batch, and completes iff every query then has one |
| `SessionRounds.RoundGoesOn` | `crates/algocline-engine/src/session.rs:479-521` | while some query has no reply the session stays paused and holds, for each query, the first text fed |
| `SessionRounds.RoundCloses` | `crates/algocline-engine/src/session.rs:479-521` | the covering feed resumes the session: the taken responses are the first texts in issue order, each channel carries exactly that text once, each transcript entry shows the last text fed |
| `SessionRounds.RejectedFeedChanges` | `crates/algocline-engine/src/session.rs:495-507` | in every reachable state: a rejected feed changes nothing but the transcript, and that if and only if some entry has the id and the newest such entry does not show the text; then exactly that entry |
| `SessionRounds.RejectedFeedOverwrites` | `crates/algocline-engine/src/session.rs:495-507` | a run in which a rejected second feed overwrites the transcript although the delivered reply stays |
| `Registry.EveryInterleaving` | `crates/algocline-engine/src/session.rs:696-840` | over every interleaving of starts, feeds and reaping: a session is in the map or held by one task or gone, a running one in the map has exactly one task to take it, waits happen on running sessions only, one per round |
| `Registry.MoveKeepsInv` | `crates/algocline-engine/src/session.rs:696-840` | every lock section, wait and reap keeps the registry invariant |
| `Registry.LuaKeeps` | `crates/algocline-engine/src/session.rs:419-462` | no wait in a reachable state is an invalid transition |
| `Registry.GoneForever` | `crates/algocline-engine/src/session.rs:822-839` | a reaped or finished session never comes back |
| `StateStore.DispatchIsExact` | `crates/algocline-engine/src/state.rs:322-332` | a key has a file of its own iff it is prefix:id of two safe segments, and which file |
| `StateStore.DispatchIsInjective` | `crates/algocline-engine/src/state.rs:322-332` | no two keys share a file |
| `StateStore.HasIffGet` | `crates/algocline-engine/src/state.rs:813-831` | `has` agrees with `get` on every key `get` can read |
| `StateStore.JsonFileStore.SaveFile` | `crates/algocline-engine/src/state.rs:349-368` | a write replaces the live file or leaves it, depending on the storage |
| `StateStore.JsonFileStore.Get` | `crates/algocline-engine/src/state.rs:729-752` | the key's own file overrides its entry in the namespace file |
| `StateStore.JsonFileStore.Has` | `crates/algocline-engine/src/state.rs:813-831` | presence in either layer, without parsing the key's own file |
| `StateStore.JsonFileStore.Set` | `crates/algocline-engine/src/state.rs:754-770` | the write goes to the key's layer; errors leave the live files |
| `StateStore.JsonFileStore.SetNx` | `crates/algocline-engine/src/state.rs:833-866` | writes and reports true only if both layers lack the key |
| `StateStore.JsonFileStore.Incr` | `crates/algocline-engine/src/state.rs:868-913` | adds to the visible number of either layer or to the default |
| `StateStore.JsonFileStore.Delete` | `crates/algocline-engine/src/state.rs:772-801` | removes the key's own file, else its namespace entry |
| `StateStore.JsonFileStore.Keys` | `crates/algocline-engine/src/state.rs:803-811` | lists exactly the keys of the namespace file |
| `StateStore.SetIsUpdate` | `crates/algocline-engine/src/state.rs:754-770` | as a map: an upsert of one key and of nothing else, or an error that changes no value |
| `StateStore.SetNxIsUpdate` | `crates/algocline-engine/src/state.rs:833-866` | as a map: inserts iff the key is absent and the write works; all other keys keep their values |
| `StateStore.IncrIsUpdate` | `crates/algocline-engine/src/state.rs:868-913` | as a map: succeeds iff the value is a number or absent and the write works; the new value is returned and stored, all other keys keep theirs |
| `StateStore.DeleteUncovers` | `crates/algocline-engine/src/state.rs:772-801` | true iff the key was there; uncovers at most the namespace value the file was hiding; other keys keep theirs |
| `StateStore.SecondDeleteRemoves` | `crates/algocline-engine/src/state.rs:772-801` | after two deletes the key is gone from the namespace |
| `StateStore.LegacyOnlyShrinks` | `crates/algocline-engine/src/state.rs:754-913` | over any sequence of operations a namespace file never gains or changes an entry of a dispatch-shaped key |
| `StateConcurrency.LiveFilesAreWhole` | `crates/algocline-engine/src/state.rs:262-368` | at every step of every interleaving, crashes and failed writes included, the live files are what the committed transactions made of them |
| `StateConcurrency.MoveKeepsInv` | `crates/algocline-engine/src/state.rs:262-368` | every lock, load, staging, rename and crash step keeps the invariant |
| `StateConcurrency.EntryIsSequential` | `crates/algocline-engine/src/state.rs:833-913` | a committed decision is the one the transaction would make alone at its place in the log, unless the namespace entry it read was removed before it committed |
| `StateConcurrency.SequentialExactly` | `crates/algocline-engine/src/state.rs:833-913` | a committed decision is the sequential one if and only if its transaction did not race, or its key has a file by then, or it is an increment whose default is the removed number |
| `StateConcurrency.RaceReadsStale` | `crates/algocline-engine/src/state.rs:833-913` | a racing transaction is a `set_nx` or an increment that read an entry which is gone when it commits |
| `StateConcurrency.NoUpdateIsLost` | `crates/algocline-engine/src/state.rs:754-913` | whole-store form: with no race at all the store ends as, and every call returned what, the transactions give one after the other in commit order |
| `StateConcurrency.KeyIsSequential` | `crates/algocline-engine/src/state.rs:754-913` | per key, over every interleaving and whatever races elsewhere: a key whose own transactions do not race ends as, and each of them returned what, the committed transactions give one after the other |
| `StateConcurrency.UntouchedKeySurvives` | `crates/algocline-engine/src/state.rs:754-913` | over every interleaving a key no committed transaction touches reads as at the start |
| `StateConcurrency.ConcurrentIncrementsAddUp` | `crates/algocline-engine/src/state.rs:868-913` | over every interleaving in which only increments touch a key, each returns its partial sum in commit order and the store ends at start plus their sum; the start is the number found, in whichever layer and whatever the defaults, or else the default of the first to commit |
| `StateConcurrency.EveryRunKeepsKeys` | `crates/algocline-engine/src/state.rs:262-368` | both, partial sums included, at every step of every run from a boot, crashes and failed writes included |
| `StateConcurrency.RaceChangesResult` | `crates/algocline-engine/src/state.rs:772-913` | from every store with a numeric namespace entry x and no file for the key, a run under the locks exists in which a delete, both its phases, removes that entry and an increment then commits x plus its delta; alone it would give default plus delta |
| `StateConcurrency.SetNxSeesTheDeleted` | `crates/algocline-engine/src/state.rs:772-866` | from every such store a run exists in which `set_nx` answers "present" for an entry a delete has already removed |
| `StateConcurrency.SiblingsSurvive` | `crates/algocline-engine/src/state.rs:754-913` | sequential form: over any list of transactions a key none of them touches reads as before |
| `StateConcurrency.IncrementsAddUp` | `crates/algocline-engine/src/state.rs:868-913` | sequential form: increments return the partial sums in order and leave start plus their sum; a default counts only where no number was found |
| `StateConcurrency.TxnFrame` | `crates/algocline-engine/src/state.rs:754-913` | one transaction changes what one key reads as and no other |
| `StateReset.ResetDispatchedWithBackup` | `crates/algocline-engine/src/state.rs:622-704` | in every state between two file operations, partial copies and writes included, the live file is the whole original, or the whole result with the original in the backup; success, result, counts and each error as stated |
| `StateReset.DropStepsInPlace` | `crates/algocline-engine/src/state.rs:661-682` | the retain loop keeps the entries that match no step |
| `StateReset.DropFieldsInPlace` | `crates/algocline-engine/src/state.rs:684-690` | the removal loop removes the named fields and counts each once |
| `StateReset.KeepStepsIs` | `crates/algocline-engine/src/state.rs:664-674` | matching steps all go, everything else stays with its repetitions |
| `StateReset.ResetKeepsRest` | `crates/algocline-engine/src/state.rs:649-690` | other fields are untouched and the field count is what disappeared |
| `StateReset.ResetTwice` | `crates/algocline-engine/src/state.rs:622-704` | resetting again removes nothing |
| `StateReset.SecondResetSameFile` | `crates/algocline-engine/src/state.rs:622-704` | resetting the result again the same way gives the same text |
| `StateReset.SecondResetBackup` | `crates/algocline-engine/src/state.rs:622-704` | after two completed resets the backup holds what the first one wrote, so it is the original if and only if the first reset wrote the very text it found |
| `StateReset.OriginalIsLost` | `crates/algocline-engine/src/state.rs:622-704` | a file whose original text is nowhere on disk after the second reset |

## Left out

- Registry.EveryInterleaving: the map of sessions and the tasks are values, not heap objects; the source's map owns its sessions, so no aliasing is lost, but update in place is not shown for the map itself.
- Registry.GoneForever: a call that is dropped half-way by its async runtime is not modelled.
- Registry.MoveKeepsInv: the reaper may take any sessions at any time; idle times and clocks are not modelled.
- Sessions.Session.FeedOne: activity timestamps and the notification of partial feeds are not modelled.
- Lineage.Lineage: depths are unbounded and the default depth is a parameter; the JSON form of the result is not modelled.
- Find.FindWithStore: parsing of `order_by` and the package filter happen before the model starts.
- Samples.WriteThenRead: the JSON codec is assumed to write one line per value, as compact JSON does.
- CardEvents.FileCardStore.ImportFromDir: source files are classed as importable, of another schema, broken, or failing while they are copied; how a file comes to be so is not modelled.
- CardService.CardService.CreateCard: delivery counters are stated for the bus, not again for each verb.
- StateStore.JsonFileStore.SaveFile: a namespace file and a directory of the same name cannot collide in the model, because paths are compared by namespace, prefix and id.
- StateStore.IncrIsUpdate: floating-point rounding, infinities and NaN are not modelled.
- StateConcurrency.LiveFilesAreWhole: the unlocked `set_dispatched` and `delete_dispatched` are not among the writers.
- Metrics.MetricsObserver.Paused: token counts, budgets, character totals, timestamps and custom metrics are not modelled.
- Execution.TerminalIsFinal: the `pool_worker` phase machine on top of sessions is not modelled.
- Case files, run status and outcome sections of cards, and the log sink subscriber are not modelled.
- The Lua virtual machine, the LLM bridge, the MCP surface, the package manager and the environment parser for sinks are not modelled.
- Hash collision freedom of generated card ids is not modelled; ids are parameters.
- Sorting with values of different types at one key is not modelled: the source's comparison is not transitive there.

/** What holds in every reachable state of a session, and what one round of
    queries delivers. */
module SessionRuns {
  import opened Execution
  import opened Json
  import opened Metrics
  import opened Sessions

  // ----- the channel log -----

  /** The texts sent on one channel, in order. */
  function Texts(sent: seq<Sent>, channel: nat): seq<string> {
    if sent == [] then []
    else
      var last := sent[|sent| - 1];
      Texts(sent[..|sent| - 1], channel) + if last.channel == channel then [last.text] else []
  }

  lemma TextsSnoc(sent: seq<Sent>, m: Sent, channel: nat)
    ensures Texts(sent + [m], channel) == Texts(sent, channel) + if m.channel == channel then [m.text] else []
  {
    assert (sent + [m])[..|sent|] == sent;
  }

  // ----- the invariant -----

  /** The queries waited for: none unless paused. */
  function Waiting(ph: Phase): seq<Query> {
    if ph.Paused? then ph.pending.queries else []
  }

  function Replies(ph: Phase): map<string, string> {
    if ph.Paused? then ph.pending.responses else map[]
  }

  predicate EntryFor(id: string, replies: map<string, string>, e: Entry) {
    e.queryId == id && (e.response.None? <==> id !in replies)
  }

  ghost predicate AllReplied(es: seq<Entry>) {
    forall j | 0 <= j < |es| :: es[j].response.Some?
  }

  ghost predicate EntriesFor(qs: seq<Query>, replies: map<string, string>, es: seq<Entry>) {
    |es| == |qs| && forall k | 0 <= k < |qs| :: EntryFor(qs[k].id, replies, es[k])
  }

  /** The batch waited for is the tail of the transcript, entry by entry, and an
      entry is unanswered exactly when its query is. */
  ghost predicate Aligned(ph: Phase, es: seq<Entry>) {
    && |Waiting(ph)| <= |es|
    && AllReplied(es[..|es| - |Waiting(ph)|])
    && EntriesFor(Waiting(ph), Replies(ph), es[|es| - |Waiting(ph)|..])
  }

  /** Open channels are those of the unanswered queries, each under its own number. */
  ghost predicate Linked(ph: Phase, respTxs: map<string, nat>, issued: nat) {
    && |Waiting(ph)| <= issued
    && respTxs.Keys == OpenIds(IdsOf(Waiting(ph)), Replies(ph))
    && (forall k | 0 <= k < |Waiting(ph)| && Waiting(ph)[k].id in respTxs ::
          respTxs[Waiting(ph)[k].id] == issued - |Waiting(ph)| + k)
  }

  /** Every channel of an answered query has fired once, every other one not at all. */
  ghost predicate FiredOnce(es: seq<Entry>, sent: seq<Sent>) {
    forall c: nat :: |Texts(sent, c)| == if c < |es| && es[c].response.Some? then 1 else 0
  }

  ghost predicate Counted(ph: Phase, st: Status, issued: nat) {
    && |st.transcript| == issued == st.llmCalls
    && st.pauses == st.rounds + if ph.Paused? then 1 else 0
  }

  ghost predicate Inv(s: State) {
    && ValidPhase(s.phase)
    && (s.phase.Paused? && s.phase.pending.queries != [] ==> !AllAnswered(s.phase.pending))
    && Counted(s.phase, s.status, s.issued)
    && Aligned(s.phase, s.status.transcript)
    && Linked(s.phase, s.respTxs, s.issued)
    && FiredOnce(s.status.transcript, s.sent)
  }

  lemma NewSessionInv()
    ensures Inv(NEW_SESSION)
  {
    assert IdsOf([]) == {};
    assert OpenIds({}, map[]) == {};
  }

  // ----- feeds keep it -----

  /** The query is waited for and has no reply yet. */
  ghost predicate IsOpen(s: State, id: string) {
    s.phase.Paused? && HasId(s.phase.pending.queries, id) && id !in s.phase.pending.responses
  }

  lemma {:induction false} LastIs(older: seq<Entry>, tail: seq<Entry>, id: string)
    ensures LastIndex(older + tail, id)
         == if LastIndex(tail, id).Some? then Some(|older| + LastIndex(tail, id).value) else LastIndex(older, id)
  {
    if tail == [] {
      assert older + tail == older;
    } else {
      var n := |tail| - 1;
      assert (older + tail)[..|older| + n] == older + tail[..n];
      LastIs(older, tail[..n], id);
    }
  }

  /** The one entry of a batch of distinct ids with that id. */
  lemma {:induction false} TailIndex(qs: seq<Query>, replies: map<string, string>, es: seq<Entry>, id: string)
    requires DistinctIds(qs) && EntriesFor(qs, replies, es)
    ensures LastIndex(es, id).Some? ==> qs[LastIndex(es, id).value].id == id
    ensures forall k | 0 <= k < |qs| && qs[k].id == id :: LastIndex(es, id) == Some(k)
  {
    hide HasId, IdsOf;
    var at := LastIndex(es, id);
    LastIndexIs(es, id);
    if at.Some? {
      assert EntryFor(qs[at.value].id, replies, es[at.value]);
    }
    forall k | 0 <= k < |qs| && qs[k].id == id
      ensures at == Some(k)
    {
      assert EntryFor(qs[k].id, replies, es[k]);
    }
  }

  lemma NoQueries()
    ensures DistinctIds([])
  {
  }

  lemma FeedGoesSplit(qs: seq<Query>, replies: map<string, string>, older: seq<Entry>, tail: seq<Entry>,
      id: string)
    requires DistinctIds(qs) && EntriesFor(qs, replies, tail)
    ensures var at := LastIndex(older + tail, id);
            && (at.Some? && at.value >= |older| ==> at.value - |older| < |qs| && qs[at.value - |older|].id == id)
            && (forall k | 0 <= k < |qs| && qs[k].id == id :: at == Some(|older| + k))
  {
    hide LastIndex, DistinctIds;
    LastIs(older, tail, id);
    TailIndex(qs, replies, tail, id);
  }

  /** Where a feed's text goes: to the entry of the current batch with that id, even
      when earlier rounds used the same id, and else to an older entry. */
  lemma FeedGoes(ph: Phase, es: seq<Entry>, id: string)
    requires ValidPhase(ph) && Aligned(ph, es)
    ensures var b, at := |es| - |Waiting(ph)|, LastIndex(es, id);
            && (at.Some? && at.value >= b ==> Waiting(ph)[at.value - b].id == id)
            && (forall k | 0 <= k < |Waiting(ph)| && Waiting(ph)[k].id == id :: at == Some(b + k))
  {
    hide HasId, IdsOf, LastIndex, EntriesFor, AllReplied, DistinctIds;
    var b := |es| - |Waiting(ph)|;
    assert es == es[..b] + es[b..];
    assert DistinctIds(Waiting(ph)) by { NoQueries(); }
    FeedGoesSplit(Waiting(ph), Replies(ph), es[..b], es[b..], id);
  }

  /** Writing a text where a reply is already. */
  lemma RewriteAligned(ph: Phase, es: seq<Entry>, at: nat, text: string)
    requires Aligned(ph, es) && at < |es| && es[at].response.Some?
    ensures Aligned(ph, es[at := es[at].(response := Some(text))])
  {
    hide HasId, IdsOf;
    var es', b := es[at := es[at].(response := Some(text))], |es| - |Waiting(ph)|;
    forall j | 0 <= j < b
      ensures es'[..b][j].response.Some?
    {
      assert es[..b][j].response.Some?;
    }
    forall k | 0 <= k < |Waiting(ph)|
      ensures EntryFor(Waiting(ph)[k].id, Replies(ph), es'[b..][k])
    {
      assert EntryFor(Waiting(ph)[k].id, Replies(ph), es[b..][k]);
    }
  }

  /** A feed that the state machine rejects only rewrites a reply that is there. */
  lemma RejectedRewrites(ph: Phase, es: seq<Entry>, id: string, text: string)
    requires ValidPhase(ph) && Aligned(ph, es)
    requires ph.Paused? && HasId(ph.pending.queries, id) ==> id in ph.pending.responses
    ensures Aligned(ph, Answered(es, id, text))
    ensures forall j | 0 <= j < |es| :: Answered(es, id, text)[j].response.Some? == es[j].response.Some?
  {
    hide IdsOf, LastIndex, HasId, AllReplied, EntriesFor;
    var at, b := LastIndex(es, id), |es| - |Waiting(ph)|;
    FeedGoes(ph, es, id);
    if at.Some? {
      assert es[at.value].response.Some? by {
        if at.value >= b {
          var k := at.value - b;
          ReplyIsThere(Waiting(ph), Replies(ph), es[b..], k);
          assert es[b..][k] == es[at.value];
        } else {
          assert es[..b][at.value] == es[at.value];
          ReplyWasThere(es[..b], at.value);
        }
      }
      RewriteAligned(ph, es, at.value, text);
    }
  }

  lemma ReplyIsThere(qs: seq<Query>, replies: map<string, string>, tail: seq<Entry>, k: nat)
    requires EntriesFor(qs, replies, tail) && k < |qs| && (HasId(qs, qs[k].id) ==> qs[k].id in replies)
    ensures tail[k].response.Some?
  {
    assert EntryFor(qs[k].id, replies, tail[k]);
  }

  lemma ReplyWasThere(es: seq<Entry>, j: nat)
    requires AllReplied(es) && j < |es|
    ensures es[j].response.Some?
  {
  }

  lemma SameFired(es: seq<Entry>, es': seq<Entry>, sent: seq<Sent>)
    requires FiredOnce(es, sent) && |es'| == |es|
    requires forall j | 0 <= j < |es| :: es'[j].response.Some? == es[j].response.Some?
    ensures FiredOnce(es', sent)
  {
    hide Texts;
  }

  lemma RejectedKeepsInv(s: State, id: string, text: string)
    requires Inv(s) && !IsOpen(s, id)
    ensures Inv(AfterFeedOne(s, id, text)) && FeedOneReply(s, id, text).FeedRejected?
    ensures AfterFeedOne(s, id, text) == s.(status := OnResponseFed(s.status, id, text))
  {
    hide Aligned, FiredOnce, AllAnswered;
    assert id !in s.respTxs;
    RejectedRewrites(s.phase, s.status.transcript, id, text);
    SameFired(s.status.transcript, Answered(s.status.transcript, id, text), s.sent);
  }

  /** The state after an open query is answered, before the phase moves on. */
  ghost function AnsweredState(s: State, id: string, text: string): State
    requires IsOpen(s, id) && id in s.respTxs
  {
    s.(status := OnResponseFed(s.status, id, text),
    phase := Paused(s.phase.pending.(responses := s.phase.pending.responses[id := text])),
    sent := s.sent + [Sent(s.respTxs[id], text)],
    respTxs := s.respTxs - {id})
  }

  lemma AlignedParts(p: Pending, es: seq<Entry>) returns (older: seq<Entry>, tail: seq<Entry>)
    requires Aligned(Paused(p), es)
    ensures AllReplied(older) && EntriesFor(p.queries, p.responses, tail)
    ensures es == older + tail && |tail| == |p.queries|
  {
    hide EntriesFor, AllReplied;
    older, tail := es[..|es| - |p.queries|], es[|es| - |p.queries|..];
  }

  lemma AlignedJoin(p: Pending, older: seq<Entry>, tail: seq<Entry>)
    requires AllReplied(older) && EntriesFor(p.queries, p.responses, tail) && |tail| == |p.queries|
    ensures Aligned(Paused(p), older + tail)
  {
    hide EntriesFor, AllReplied;
    var es := older + tail;
    assert es[..|older|] == older && es[|older|..] == tail;
  }

  lemma AnsweredJoin(older: seq<Entry>, tail: seq<Entry>, id: string, k: nat, text: string)
    requires k < |tail| && LastIndex(older + tail, id) == Some(|older| + k)
    ensures Answered(older + tail, id, text) == older + tail[k := tail[k].(response := Some(text))]
  {
    hide LastIndex;
  }

  lemma AnswerJoined(p: Pending, older: seq<Entry>, tail: seq<Entry>, k: nat, text: string)
    requires DistinctIds(p.queries) && AllReplied(older) && EntriesFor(p.queries, p.responses, tail)
    requires |tail| == |p.queries| && k < |p.queries| && p.queries[k].id !in p.responses
    ensures var id := p.queries[k].id;
            && LastIndex(older + tail, id) == Some(|older| + k) && (older + tail)[|older| + k].response.None?
            && Aligned(Paused(p.(responses := p.responses[id := text])), Answered(older + tail, id, text))
  {
    hide *;
    var id := p.queries[k].id;
    FeedGoesSplit(p.queries, p.responses, older, tail, id);
    TailAnswered(p.queries, p.responses, tail, k, text);
    AnsweredJoin(older, tail, id, k, text);
    AlignedJoin(p.(responses := p.responses[id := text]), older, tail[k := tail[k].(response := Some(text))]);
  }

  lemma TailAnswered(qs: seq<Query>, replies: map<string, string>, tail: seq<Entry>, k: nat, text: string)
    requires DistinctIds(qs) && EntriesFor(qs, replies, tail) && k < |qs| && qs[k].id !in replies
    ensures tail[k].response.None?
    ensures EntriesFor(qs, replies[qs[k].id := text], tail[k := tail[k].(response := Some(text))])
  {
    hide HasId, IdsOf;
    var id, tail' := qs[k].id, tail[k := tail[k].(response := Some(text))];
    assert EntryFor(id, replies, tail[k]);
    forall i | 0 <= i < |qs|
      ensures EntryFor(qs[i].id, replies[id := text], tail'[i])
    {
      assert EntryFor(qs[i].id, replies, tail[i]);
      assert i != k ==> qs[i].id != id;
    }
  }

  lemma AnswerLinked(p: Pending, respTxs: map<string, nat>, issued: nat, id: string, text: string)
    requires Linked(Paused(p), respTxs, issued) && id in respTxs
    ensures Linked(Paused(p.(responses := p.responses[id := text])), respTxs - {id}, issued)
  {
    var after := p.(responses := p.responses[id := text]);
    assert OpenIds(IdsOf(p.queries), after.responses) == OpenIds(IdsOf(p.queries), p.responses) - {id};
  }

  lemma AnswerFires(es: seq<Entry>, es': seq<Entry>, sent: seq<Sent>, c: nat, text: string)
    requires FiredOnce(es, sent) && c < |es| && es[c].response.None? && |es'| == |es|
    requires forall j | 0 <= j < |es| :: es'[j] == if j == c then es[j].(response := Some(text)) else es[j]
    ensures FiredOnce(es', sent + [Sent(c, text)])
    ensures Texts(sent + [Sent(c, text)], c) == [text]
  {
    hide Texts;
    forall d: nat
      ensures |Texts(sent + [Sent(c, text)], d)| == if d < |es'| && es'[d].response.Some? then 1 else 0
    {
      TextsSnoc(sent, Sent(c, text), d);
      assert |Texts(sent, d)| == if d < |es| && es[d].response.Some? then 1 else 0;
    }
    TextsSnoc(sent, Sent(c, text), c);
    assert |Texts(sent, c)| == 0;
    assert Texts(sent, c) + [text] == [text];
  }

  lemma OpenHasChannel(p: Pending, respTxs: map<string, nat>, issued: nat, k: nat)
    requires Linked(Paused(p), respTxs, issued) && k < |p.queries| && p.queries[k].id !in p.responses
    ensures var id := p.queries[k].id;
            HasId(p.queries, id) && id in respTxs && respTxs[id] == issued - |p.queries| + k
  {
    assert HasId(p.queries, p.queries[k].id);
  }

  /** What an accepted feed does: the reply goes out once, on the query's own
      channel, and onto the query's own transcript entry. */
  lemma OpenIsAnswered(s: State, k: nat, text: string)
    requires Inv(s) && s.phase.Paused? && k < |s.phase.pending.queries|
    requires s.phase.pending.queries[k].id !in s.phase.pending.responses
    ensures var id, c := s.phase.pending.queries[k].id, s.issued - |s.phase.pending.queries| + k;
            && IsOpen(s, id) && id in s.respTxs && s.respTxs[id] == c
            && var a := AnsweredState(s, id, text);
               && ValidPhase(a.phase) && Counted(a.phase, a.status, a.issued)
               && Aligned(a.phase, a.status.transcript) && Linked(a.phase, a.respTxs, a.issued)
               && FiredOnce(a.status.transcript, a.sent) && Texts(a.sent, c) == [text]
               && (forall j | 0 <= j < |s.status.transcript| :: a.status.transcript[j]
                     == if j == c then s.status.transcript[j].(response := Some(text)) else s.status.transcript[j])
  {
    hide FiredOnce, Aligned, Linked, HasId, IdsOf, LastIndex, AllAnswered, DistinctIds;
    var p := s.phase.pending;
    var id, es := p.queries[k].id, s.status.transcript;
    var c := s.issued - |p.queries| + k;
    OpenHasChannel(p, s.respTxs, s.issued, k);
    var older, tail := AlignedParts(p, es);
    AnswerJoined(p, older, tail, k, text);
    AnswerLinked(p, s.respTxs, s.issued, id, text);
    AnswerFires(es, Answered(es, id, text), s.sent, c, text);
    AfterFeedValid(p, id, text);
  }

  /** The last reply closes the pause; any other one leaves it waiting. */
  lemma OpenFeedIs(s: State, id: string, text: string)
    requires Inv(s) && IsOpen(s, id) && id in s.respTxs
    ensures var a := AnsweredState(s, id, text);
            && FeedOneReply(s, id, text) == Accepted(AllAnswered(a.phase.pending))
            && AfterFeedOne(s, id, text)
               == if AllAnswered(a.phase.pending) then a.(phase := Running, status := OnResumed(a.status)) else a
  {
    hide OnResponseFed, AllAnswered, Aligned, Linked, FiredOnce;
    var p := s.phase.pending;
    AfterFeedValid(p, id, text);
    RemainingCounts(AfterFeed(p, id, text));
  }

  lemma ClosingKeepsInv(a: State)
    requires a.phase.Paused? && ValidPhase(a.phase) && Counted(a.phase, a.status, a.issued)
    requires Aligned(a.phase, a.status.transcript) && Linked(a.phase, a.respTxs, a.issued)
    requires FiredOnce(a.status.transcript, a.sent) && AllAnswered(a.phase.pending)
    ensures Inv(a.(phase := Running, status := OnResumed(a.status)))
  {
    hide FiredOnce, EntriesFor, AllReplied;
    var p, es := a.phase.pending, a.status.transcript;
    NoneLeftOpen(p);
    EmptyLinked(a.issued);
    var b := |es| - |p.queries|;
    assert es == es[..b] + es[b..];
    TailReplied(p, es[b..]);
    RepliedJoin(es[..b], es[b..]);
    assert es[..|es|] == es && es[|es|..] == [];
    NoEntries();
  }

  lemma NoEntries()
    ensures EntriesFor([], map[], [])
  {
  }

  lemma EmptyLinked(issued: nat)
    ensures Linked(Running, map[], issued)
  {
    assert IdsOf([]) == {};
    assert OpenIds({}, map[]) == {};
  }

  lemma NoneLeftOpen(p: Pending)
    requires AllAnswered(p)
    ensures OpenIds(IdsOf(p.queries), p.responses) == {}
  {
    forall id | id in IdsOf(p.queries)
      ensures id in p.responses
    {
      assert HasId(p.queries, id);
    }
  }

  lemma TailReplied(p: Pending, es: seq<Entry>)
    requires AllAnswered(p) && EntriesFor(p.queries, p.responses, es)
    ensures AllReplied(es)
  {
    hide HasId, IdsOf;
    forall j | 0 <= j < |es|
      ensures es[j].response.Some?
    {
      assert EntryFor(p.queries[j].id, p.responses, es[j]);
    }
  }

  lemma RepliedJoin(a: seq<Entry>, b: seq<Entry>)
    requires AllReplied(a) && AllReplied(b)
    ensures AllReplied(a + b)
  {
  }

  lemma FeedKeepsInv(s: State, id: string, text: string)
    requires Inv(s)
    ensures Inv(AfterFeedOne(s, id, text))
    ensures FeedOneReply(s, id, text).Accepted? <==> IsOpen(s, id)
  {
    if !IsOpen(s, id) {
      RejectedKeepsInv(s, id, text);
    } else {
      hide Aligned, Linked, FiredOnce, AllAnswered, AnsweredState, AfterFeedOne;
      var k := IndexOf(s.phase.pending.queries, id);
      OpenIsAnswered(s, k, text);
      OpenFeedIs(s, id, text);
      var a := AnsweredState(s, id, text);
      AnsweredIsPaused(s, id, text);
      if AllAnswered(a.phase.pending) {
        ClosingKeepsInv(a);
      }
    }
  }

  lemma AnsweredIsPaused(s: State, id: string, text: string)
    requires IsOpen(s, id) && id in s.respTxs
    ensures AnsweredState(s, id, text).phase.Paused?
  {
  }

  // ----- waits keep it -----

  lemma {:induction false} SendersNumbered(open: map<string, nat>, qs: seq<Query>, base: nat)
    requires DistinctIds(qs)
    ensures Senders(open, qs, base).Keys == open.Keys + IdsOf(qs)
    ensures forall k | 0 <= k < |qs| :: Senders(open, qs, base)[qs[k].id] == base + k
  {
    if qs == [] {
      assert IdsOf(qs) == {};
    } else {
      hide HasId, IdsOf;
      DistinctFront(qs);
      SendersNumbered(open, qs[..|qs| - 1], base);
    }
  }

  lemma BatchAligned(es: seq<Entry>, qs: seq<Query>)
    requires AllReplied(es)
    ensures Aligned(Paused(Pending(qs, map[])), es + NewEntries(qs))
  {
    hide HasId, IdsOf, AllReplied, NewEntries;
    var all := es + NewEntries(qs);
    assert all[..|all| - |qs|] == es && all[|all| - |qs|..] == NewEntries(qs);
  }

  lemma BatchLinked(qs: seq<Query>, issued: nat)
    requires DistinctIds(qs)
    ensures Linked(Paused(Pending(qs, map[])), Senders(map[], qs, issued), issued + |qs|)
  {
    hide IdsOf, Senders;
    SendersNumbered(map[], qs, issued);
    assert OpenIds(IdsOf(qs), map[]) == IdsOf(qs);
  }

  lemma BatchFires(es: seq<Entry>, qs: seq<Query>, sent: seq<Sent>)
    requires FiredOnce(es, sent)
    ensures FiredOnce(es + NewEntries(qs), sent)
  {
    hide Texts;
  }

  lemma NoOneWaiting(s: State)
    requires Inv(s) && !s.phase.Paused?
    ensures s.respTxs == map[] && AllReplied(s.status.transcript)
  {
    assert IdsOf([]) == {};
    assert s.status.transcript[..|s.status.transcript|] == s.status.transcript;
  }

  lemma WaitKeepsInv(s: State, ev: Event)
    requires Inv(s) && s.phase.Running? && (ev.Batch? ==> DistinctIds(ev.queries))
    ensures Inv(AfterWait(s, ev)) && !WaitReplyOf(s, ev).InvalidTransition?
  {
    hide Aligned, Linked, FiredOnce, Senders, IdsOf, AllReplied;
    NoOneWaiting(s);
    if ev.Batch? {
      CollectKeepsIds(ev.queries);
      BatchAligned(s.status.transcript, ev.queries);
      BatchLinked(ev.queries, s.issued);
      BatchFires(s.status.transcript, ev.queries, s.sent);
    } else {
      EndKeeps(s, AfterWait(s, ev).phase);
    }
  }

  lemma EndKeeps(s: State, ph: Phase)
    requires s.phase.Running? && !ph.Paused? && Aligned(s.phase, s.status.transcript)
    requires Linked(s.phase, s.respTxs, s.issued)
    ensures Aligned(ph, s.status.transcript) && Linked(ph, s.respTxs, s.issued)
  {
  }

  // ----- runs -----

  datatype Act = Feed(id: string, text: string) | Wait(ev: Event)

  ghost function Step(s: State, a: Act): State {
    match a
    case Feed(id, text) => AfterFeedOne(s, id, text)
    case Wait(ev) => AfterWait(s, ev)
  }

  ghost function Run(s: State, acts: seq<Act>): State {
    if acts == [] then s else Step(Run(s, acts[..|acts| - 1]), acts[|acts| - 1])
  }

  /** Feeds come at any time; a wait only on a running session, and no batch
      repeats an id. */
  ghost predicate Legal(s: State, acts: seq<Act>) {
    forall n | 0 <= n < |acts| :: LegalAct(Run(s, acts[..n]), acts[n])
  }

  ghost predicate LegalAct(s: State, a: Act) {
    a.Wait? ==> s.phase.Running? && (a.ev.Batch? ==> DistinctIds(a.ev.queries))
  }

  lemma LegalPrefix(s: State, acts: seq<Act>)
    requires acts != [] && Legal(s, acts)
    ensures Legal(s, acts[..|acts| - 1]) && LegalAct(Run(s, acts[..|acts| - 1]), acts[|acts| - 1])
  {
    hide LegalAct, Run;
    var front := acts[..|acts| - 1];
    forall n | 0 <= n < |front|
      ensures LegalAct(Run(s, front[..n]), front[n])
    {
      assert front[..n] == acts[..n] && front[n] == acts[n];
    }
  }

  /** Open channels, `remaining` and unanswered transcript entries always agree in
      number; every issued query has fired its channel once or is still open; calls
      and pauses add up. All of it with rejected feeds mixed in. */
  lemma {:induction false} RunKeepsInv(s: State, acts: seq<Act>)
    requires Inv(s) && Legal(s, acts)
    ensures Inv(Run(s, acts)) && InNumbers(Run(s, acts))
  {
    hide Inv, InNumbers, LegalAct, Step;
    if acts != [] {
      var before, a := Run(s, acts[..|acts| - 1]), acts[|acts| - 1];
      LegalPrefix(s, acts);
      RunKeepsInv(s, acts[..|acts| - 1]);
      StepKeepsInv(before, a);
    }
    InvInNumbers(Run(s, acts));
  }

  lemma StepKeepsInv(s: State, a: Act)
    requires Inv(s) && LegalAct(s, a)
    ensures Inv(Step(s, a))
  {
    hide Inv;
    match a {
      case Feed(id, text) => FeedKeepsInv(s, id, text);
      case Wait(ev) => WaitKeepsInv(s, ev);
    }
  }

  function OpenEntries(es: seq<Entry>): nat {
    if es == [] then 0
    else OpenEntries(es[..|es| - 1]) + if es[|es| - 1].response.None? then 1 else 0
  }

  ghost predicate InNumbers(s: State) {
    && |s.respTxs| == OpenEntries(s.status.transcript)
       == (if s.phase.Paused? then |s.phase.pending.queries| - |s.phase.pending.responses| else 0)
    && s.status.llmCalls == |s.status.transcript|
    && s.status.pauses == s.status.rounds + if s.phase.Paused? then 1 else 0
  }

  lemma {:induction false} OpenTail(older: seq<Entry>, qs: seq<Query>, replies: map<string, string>,
      tail: seq<Entry>)
    requires AllReplied(older) && EntriesFor(qs, replies, tail)
    ensures OpenEntries(older + tail) == Unanswered(qs, replies)
  {
    if tail == [] {
      assert older + tail == older;
      NoneOpen(older);
    } else {
      var n := |tail| - 1;
      assert EntryFor(qs[n].id, replies, tail[n]);
      forall k | 0 <= k < n
        ensures EntryFor(qs[..n][k].id, replies, tail[..n][k])
      {
        assert EntryFor(qs[k].id, replies, tail[k]);
      }
      OpenTail(older, qs[..n], replies, tail[..n]);
      assert (older + tail)[..|older| + n] == older + tail[..n];
    }
  }

  lemma {:induction false} NoneOpen(es: seq<Entry>)
    requires AllReplied(es)
    ensures OpenEntries(es) == 0
  {
    if es != [] {
      NoneOpen(es[..|es| - 1]);
    }
  }

  lemma InvInNumbers(s: State)
    requires Inv(s)
    ensures InNumbers(s)
  {
    hide Texts, FiredOnce, IdsOf, OpenIds, AllReplied, EntriesFor;
    var qs, responses, es := Waiting(s.phase), Replies(s.phase), s.status.transcript;
    var b := |es| - |qs|;
    OpenTail(es[..b], qs, responses, es[b..]);
    assert es[..b] + es[b..] == es;
    CountIds(qs, responses);
    assert |s.respTxs| == |s.respTxs.Keys|;
    if s.phase.Paused? {
      RemainingCounts(s.phase.pending);
    }
  }

  /** The sole open channel belongs to the one query without a reply, and feeding
      that query closes the round. */
  lemma SolePendingCloses(s: State, id: string, text: string)
    requires Inv(s) && s.respTxs.Keys == {id}
    ensures IsOpen(s, id) && Unanswered(s.phase.pending.queries, s.phase.pending.responses) == 1
    ensures FeedOneReply(s, id, text) == Accepted(true) && AfterFeedOne(s, id, text).phase.Running?
  {
    hide Aligned, Linked, FiredOnce, AllAnswered, AnsweredState, AfterFeedOne;
    OpenIsPending(s, id);
    var p := s.phase.pending;
    OpenIsAnswered(s, IndexOf(p.queries, id), text);
    OpenFeedIs(s, id, text);
    InvInNumbers(s);
    SoleIsLast(p, id, text, s.respTxs.Keys);
    assert |s.respTxs| == |s.respTxs.Keys|;
    RemainingCounts(p);
  }

  lemma OpenIsPending(s: State, id: string)
    requires Inv(s) && s.respTxs.Keys == {id}
    ensures IsOpen(s, id) && OpenIds(IdsOf(s.phase.pending.queries), s.phase.pending.responses) == {id}
    ensures AnsweredPhase(s, id)
  {
    hide Aligned, FiredOnce;
    assert id in s.respTxs;
    assert id in OpenIds(IdsOf(Waiting(s.phase)), Replies(s.phase));
    assert HasId(Waiting(s.phase), id);
  }

  ghost predicate AnsweredPhase(s: State, id: string) {
    IsOpen(s, id) && forall text :: id in s.respTxs ==>
      AnsweredState(s, id, text).phase.Paused?
      && AnsweredState(s, id, text).phase.pending
         == s.phase.pending.(responses := s.phase.pending.responses[id := text])
  }

  lemma SoleIsLast(p: Pending, id: string, text: string, open: set<string>)
    requires OpenIds(IdsOf(p.queries), p.responses) == {id}
    ensures AllAnswered(p.(responses := p.responses[id := text]))
  {
    forall i | 0 <= i < |p.queries|
      ensures p.queries[i].id in p.responses[id := text]
    {
      assert HasId(p.queries, p.queries[i].id);
      assert p.queries[i].id != id ==> p.queries[i].id !in OpenIds(IdsOf(p.queries), p.responses);
    }
  }

  // ----- why batch ids must be distinct -----

  lemma {:induction false} IdCount(qs: seq<Query>)
    ensures |IdsOf(qs)| <= |qs| && (|IdsOf(qs)| == |qs| <==> DistinctIds(qs))
  {
    if qs == [] {
      assert IdsOf(qs) == {};
    } else {
      hide IdsOf;
      var front, last := qs[..|qs| - 1], qs[|qs| - 1];
      assert qs == front + [last];
      IdCount(front);
      IdsSnoc(front, last);
      if last.id in IdsOf(front) {
        assert IdsOf(qs) == IdsOf(front);
        assert qs[IndexOf(front, last.id)].id == last.id;
      } else {
        assert DistinctIds(qs) <==> DistinctIds(front) by { DistinctAdd(front, last); }
      }
    }
  }

  lemma DistinctAdd(qs: seq<Query>, q: Query)
    requires !HasId(qs, q.id)
    ensures DistinctIds(qs + [q]) <==> DistinctIds(qs)
  {
    if DistinctIds(qs + [q]) {
      forall i, j | 0 <= i < j < |qs|
        ensures qs[i].id != qs[j].id
      {
        assert (qs + [q])[i].id != (qs + [q])[j].id;
      }
    }
  }

  lemma {:induction false} SendersKeys(qs: seq<Query>, base: nat)
    ensures Senders(map[], qs, base).Keys == IdsOf(qs)
  {
    if qs == [] {
      assert IdsOf(qs) == {};
    } else {
      hide IdsOf;
      assert qs == qs[..|qs| - 1] + [qs[|qs| - 1]];
      SendersKeys(qs[..|qs| - 1], base);
      IdsSnoc(qs[..|qs| - 1], qs[|qs| - 1]);
    }
  }

  lemma {:induction false} AllOpen(older: seq<Entry>, qs: seq<Query>)
    requires AllReplied(older)
    ensures OpenEntries(older + NewEntries(qs)) == |qs|
  {
    var es := older + NewEntries(qs);
    if qs == [] {
      assert es == older;
      NoneOpen(older);
    } else {
      var n := |qs| - 1;
      AllOpen(older, qs[..n]);
      assert es[..|es| - 1] == older + NewEntries(qs[..n]);
    }
  }

  /** Pausing on a batch keeps the counts in step exactly when its ids are distinct. */
  lemma BatchKeepsNumbers(s: State, qs: seq<Query>)
    requires Inv(s) && s.phase.Running?
    ensures InNumbers(AfterWait(s, Batch(qs))) <==> DistinctIds(qs)
  {
    hide Aligned, Linked, FiredOnce, IdsOf, DistinctIds, AllReplied, Senders, NewEntries;
    NoOneWaiting(s);
    AllOpen(s.status.transcript, qs);
    SendersKeys(qs, s.issued);
    IdCount(qs);
    CollectKeepsIds(qs);
    IdCount(Collect(qs));
    var senders := Senders(map[], qs, s.issued);
    assert |senders| == |senders.Keys|;
  }
}

/** One round of a session: a batch goes out, feeds come in in any order with
    rejected ones among them, and the round closes. */
module SessionRounds {
  import opened Execution
  import opened Json
  import opened Metrics
  import opened Sessions
  import opened SessionRuns

  datatype Reply = Reply(id: string, text: string)

  ghost function FeedAll(s: State, fs: seq<Reply>): State {
    if fs == [] then s
    else AfterFeedOne(FeedAll(s, fs[..|fs| - 1]), fs[|fs| - 1].id, fs[|fs| - 1].text)
  }

  /** The text of the first feed for an id. */
  function FirstText(fs: seq<Reply>, id: string): Option<string> {
    if fs == [] then None
    else
      var earlier, f := FirstText(fs[..|fs| - 1], id), fs[|fs| - 1];
      if earlier.Some? then earlier else if f.id == id then Some(f.text) else None
  }

  function LastText(fs: seq<Reply>, id: string): Option<string> {
    if fs == [] then None
    else if fs[|fs| - 1].id == id then Some(fs[|fs| - 1].text)
    else LastText(fs[..|fs| - 1], id)
  }

  predicate Covered(fs: seq<Reply>, qs: seq<Query>) {
    forall k | 0 <= k < |qs| :: FirstText(fs, qs[k].id).Some?
  }

  function FirstTexts(qs: seq<Query>, fs: seq<Reply>): map<string, string> {
    map id | id in IdsOf(qs) && FirstText(fs, id).Some? :: FirstText(fs, id).value
  }

  function AsList(t: Option<string>): seq<string> {
    if t.Some? then [t.value] else []
  }

  /** The state of an open round: which replies went through, where, and what the
      transcript says about them. */
  ghost predicate InRound(s0: State, qs: seq<Query>, fs: seq<Reply>, s: State) {
    && s.issued == s0.issued + |qs| == |s.status.transcript|
    && s.phase == Paused(Pending(qs, FirstTexts(qs, fs)))
    && DeliveredFirst(s0.issued, qs, fs, s.sent) && RecordedLast(s0.issued, qs, fs, s.status.transcript)
  }

  /** Each query's channel carries the first text fed for it. */
  ghost predicate DeliveredFirst(base: nat, qs: seq<Query>, fs: seq<Reply>, sent: seq<Sent>) {
    forall k | 0 <= k < |qs| :: Texts(sent, base + k) == AsList(FirstText(fs, qs[k].id))
  }

  /** Each query's transcript entry shows the last text fed for it. */
  ghost predicate RecordedLast(base: nat, qs: seq<Query>, fs: seq<Reply>, es: seq<Entry>) {
    && base + |qs| == |es|
    && forall k | 0 <= k < |qs| :: es[base..][k].response == LastText(fs, qs[k].id)
  }

  // ----- the start -----

  lemma RoundStarts(s0: State, qs: seq<Query>)
    requires Inv(s0) && s0.phase.Running? && DistinctIds(qs)
    ensures var s := AfterWait(s0, Batch(qs)); Inv(s) && InRound(s0, qs, [], s)
  {
    hide Inv, HasId, IdsOf, DeliveredFirst, RecordedLast, Senders, Collect;
    WaitKeepsInv(s0, Batch(qs));
    CollectKeepsIds(qs);
    InvParts(s0);
    assert FirstTexts(qs, []) == map[];
    RecordedStart(s0.status.transcript, qs);
    DeliveredStart(s0.status.transcript, qs, s0.sent);
  }

  lemma InvParts(s: State)
    requires Inv(s)
    ensures s.issued == |s.status.transcript| && FiredOnce(s.status.transcript, s.sent)
  {
  }

  lemma RecordedStart(es: seq<Entry>, qs: seq<Query>)
    ensures RecordedLast(|es|, qs, [], es + NewEntries(qs))
  {
    assert (es + NewEntries(qs))[|es|..] == NewEntries(qs);
  }

  lemma DeliveredStart(es: seq<Entry>, qs: seq<Query>, sent: seq<Sent>)
    requires FiredOnce(es, sent)
    ensures DeliveredFirst(|es|, qs, [], sent)
  {
    hide Texts;
    forall c: nat | |es| <= c
      ensures Texts(sent, c) == []
    {
      assert |Texts(sent, c)| == 0;
    }
  }

  // ----- a feed -----

  /** Where a feed leaves the batch's transcript entries, accepted or not. */
  lemma RecordStep(base: nat, p: Pending, fs: seq<Reply>, es: seq<Entry>, f: Reply)
    requires p.Valid() && Aligned(Paused(p), es) && RecordedLast(base, p.queries, fs, es)
    ensures RecordedLast(base, p.queries, fs + [f], Answered(es, f.id, f.text))
  {
    hide HasId, IdsOf, LastIndex, AllReplied, EntriesFor, LastText;
    FeedGoes(Paused(p), es, f.id);
    var es', at := Answered(es, f.id, f.text), LastIndex(es, f.id);
    forall k | 0 <= k < |p.queries|
      ensures es'[base..][k].response == LastText(fs + [f], p.queries[k].id)
    {
      LastTextSnoc(fs, f, p.queries[k].id);
      assert es'[base..][k] == es'[base + k] && es[base..][k] == es[base + k];
      if p.queries[k].id == f.id {
        assert at == Some(base + k);
      }
    }
  }

  lemma LastTextSnoc(fs: seq<Reply>, f: Reply, id: string)
    ensures LastText(fs + [f], id) == if f.id == id then Some(f.text) else LastText(fs, id)
  {
    assert (fs + [f])[..|fs|] == fs;
  }

  lemma FirstTextSnoc(fs: seq<Reply>, f: Reply, id: string)
    ensures FirstText(fs + [f], id)
         == if FirstText(fs, id).Some? then FirstText(fs, id) else if f.id == id then Some(f.text) else None
  {
    assert (fs + [f])[..|fs|] == fs;
  }

  lemma FirstTextsSnoc(qs: seq<Query>, fs: seq<Reply>, f: Reply)
    ensures FirstTexts(qs, fs + [f])
         == if HasId(qs, f.id) && FirstText(fs, f.id).None? then FirstTexts(qs, fs)[f.id := f.text]
            else FirstTexts(qs, fs)
  {
    hide HasId, IdsOf, FirstText;
    forall id
      ensures FirstText(fs + [f], id)
           == if FirstText(fs, id).Some? then FirstText(fs, id) else if f.id == id then Some(f.text) else None
    {
      FirstTextSnoc(fs, f, id);
    }
  }

  lemma DeliverNothing(base: nat, qs: seq<Query>, fs: seq<Reply>, f: Reply, sent: seq<Sent>)
    requires DeliveredFirst(base, qs, fs, sent) && (HasId(qs, f.id) ==> FirstText(fs, f.id).Some?)
    ensures DeliveredFirst(base, qs, fs + [f], sent)
  {
    hide IdsOf, FirstText, Texts;
    forall k | 0 <= k < |qs|
      ensures Texts(sent, base + k) == AsList(FirstText(fs + [f], qs[k].id))
    {
      FirstTextSnoc(fs, f, qs[k].id);
    }
  }

  lemma DeliverOne(base: nat, qs: seq<Query>, fs: seq<Reply>, k: nat, text: string, sent: seq<Sent>)
    requires DistinctIds(qs) && DeliveredFirst(base, qs, fs, sent) && k < |qs| && FirstText(fs, qs[k].id).None?
    ensures DeliveredFirst(base, qs, fs + [Reply(qs[k].id, text)], sent + [Sent(base + k, text)])
  {
    hide HasId, IdsOf, FirstText, Texts;
    var f, m := Reply(qs[k].id, text), Sent(base + k, text);
    forall i | 0 <= i < |qs|
      ensures Texts(sent + [m], base + i) == AsList(FirstText(fs + [f], qs[i].id))
    {
      FirstTextSnoc(fs, f, qs[i].id);
      TextsSnoc(sent, m, base + i);
      assert i != k ==> qs[i].id != qs[k].id;
      assert Texts(sent, base + i) + [] == Texts(sent, base + i);
    }
  }

  /** A feed is accepted exactly when it is the first for an id of the batch, and
      completes exactly when every query now has one. */
  lemma RoundReply(s0: State, qs: seq<Query>, fs: seq<Reply>, s: State, f: Reply)
    requires Inv(s) && InRound(s0, qs, fs, s)
    ensures IsOpen(s, f.id) <==> HasId(qs, f.id) && FirstText(fs, f.id).None?
    ensures FeedOneReply(s, f.id, f.text).Accepted? <==> IsOpen(s, f.id)
    ensures IsOpen(s, f.id) ==> FeedOneReply(s, f.id, f.text) == Accepted(Covered(fs + [f], qs))
    ensures !IsOpen(s, f.id) ==> FeedOneReply(s, f.id, f.text).FeedRejected?
  {
    hide Aligned, Linked, FiredOnce, FirstText, Covered, AnsweredState, DeliveredFirst, RecordedLast;
    FeedKeepsInv(s, f.id, f.text);
    if IsOpen(s, f.id) {
      var k := IndexOf(qs, f.id);
      OpenIsAnswered(s, k, f.text);
      OpenFeedIs(s, f.id, f.text);
      AnsweredTexts(s, qs, fs, f);
      CoveredIsAnswered(qs, fs + [f]);
    }
  }

  lemma AnsweredTexts(s: State, qs: seq<Query>, fs: seq<Reply>, f: Reply)
    requires s.phase == Paused(Pending(qs, FirstTexts(qs, fs))) && IsOpen(s, f.id) && f.id in s.respTxs
    ensures AnsweredState(s, f.id, f.text).phase == Paused(Pending(qs, FirstTexts(qs, fs + [f])))
  {
    hide FirstText, HasId;
    FirstTextsSnoc(qs, fs, f);
  }

  lemma CoveredIsAnswered(qs: seq<Query>, fs: seq<Reply>)
    ensures Covered(fs, qs) <==> AllAnswered(Pending(qs, FirstTexts(qs, fs)))
  {
    hide FirstText;
    forall k | 0 <= k < |qs|
      ensures qs[k].id in FirstTexts(qs, fs) <==> FirstText(fs, qs[k].id).Some?
    {
      assert HasId(qs, qs[k].id);
    }
  }

  /** One feed within an open round, before the phase moves on. */
  lemma RoundStep(s0: State, qs: seq<Query>, fs: seq<Reply>, s: State, f: Reply)
    requires Inv(s) && InRound(s0, qs, fs, s)
    ensures var after := AfterFeedOne(s, f.id, f.text);
            && Inv(after) && after.issued == s0.issued + |qs|
            && DeliveredFirst(s0.issued, qs, fs + [f], after.sent)
            && RecordedLast(s0.issued, qs, fs + [f], after.status.transcript)
            && (after.phase == if IsOpen(s, f.id) && Covered(fs + [f], qs) then Running
                               else Paused(Pending(qs, FirstTexts(qs, fs + [f]))))
  {
    hide Aligned, Linked, FiredOnce, FirstText, Covered, DeliveredFirst, RecordedLast, FirstTexts, Counted,
      HasId, IdsOf, AllAnswered, AfterFeedOne, AnsweredState, FeedOneReply, DistinctIds;
    FeedKeepsInv(s, f.id, f.text);
    RoundReply(s0, qs, fs, s, f);
    FirstTextsSnoc(qs, fs, f);
    RecordStep(s0.issued, s.phase.pending, fs, s.status.transcript, f);
    if !IsOpen(s, f.id) {
      RejectedKeepsInv(s, f.id, f.text);
      DeliverNothing(s0.issued, qs, fs, f, s.sent);
    } else {
      var k := IndexOf(qs, f.id);
      OpenIsAnswered(s, k, f.text);
      OpenFeedIs(s, f.id, f.text);
      DeliverOne(s0.issued, qs, fs, k, f.text, s.sent);
      AnsweredTexts(s, qs, fs, f);
      AnsweredParts(s, f.id, f.text);
      CoveredIsAnswered(qs, fs + [f]);
    }
  }

  lemma AnsweredParts(s: State, id: string, text: string)
    requires IsOpen(s, id) && id in s.respTxs
    ensures var a := AnsweredState(s, id, text);
            && a.status.transcript == Answered(s.status.transcript, id, text)
            && a.sent == s.sent + [Sent(s.respTxs[id], text)] && a.issued == s.issued
  {
  }

  // ----- the whole round -----

  lemma CoveredGrows(fs: seq<Reply>, qs: seq<Query>)
    requires fs != [] && Covered(fs[..|fs| - 1], qs)
    ensures Covered(fs, qs)
  {
  }

  ghost function RoundState(s0: State, qs: seq<Query>, fs: seq<Reply>): State {
    FeedAll(AfterWait(s0, Batch(qs)), fs)
  }

  /** While some query has no reply the session stays paused, holding for each
      query the first text fed for it. */
  lemma {:induction false} RoundGoesOn(s0: State, qs: seq<Query>, fs: seq<Reply>)
    requires Inv(s0) && s0.phase.Running? && DistinctIds(qs) && !Covered(fs, qs)
    ensures Inv(RoundState(s0, qs, fs)) && InRound(s0, qs, fs, RoundState(s0, qs, fs))
  {
    hide Inv, InRound, AfterFeedOne, AfterWait, Covered, DistinctIds, HasId;
    if fs == [] {
      RoundStarts(s0, qs);
    } else {
      var front, f := fs[..|fs| - 1], fs[|fs| - 1];
      if Covered(front, qs) {
        CoveredGrows(fs, qs);
      }
      RoundGoesOn(s0, qs, front);
      assert fs == front + [f];
      RoundStep(s0, qs, front, RoundState(s0, qs, front), f);
      StillInRound(s0, qs, fs, RoundState(s0, qs, fs));
    }
  }

  lemma StillInRound(s0: State, qs: seq<Query>, fs: seq<Reply>, s: State)
    requires Inv(s) && s.issued == s0.issued + |qs| && s.phase == Paused(Pending(qs, FirstTexts(qs, fs)))
    requires DeliveredFirst(s0.issued, qs, fs, s.sent) && RecordedLast(s0.issued, qs, fs, s.status.transcript)
    ensures InRound(s0, qs, fs, s)
  {
  }

  /** The feed that covers the batch closes the round: the session runs again, the
      replies it takes are the accepted ones in issue order, each channel has fired
      once with that text, and each transcript entry shows it exactly when no later,
      rejected feed for the id brought another text. */
  lemma RoundCloses(s0: State, qs: seq<Query>, fs: seq<Reply>, f: Reply)
    requires Inv(s0) && s0.phase.Running? && DistinctIds(qs)
    requires !Covered(fs, qs) && Covered(fs + [f], qs)
    ensures var s, all := RoundState(s0, qs, fs), fs + [f];
            var after := AfterFeedOne(s, f.id, f.text);
            && FeedOneReply(s, f.id, f.text) == Accepted(true) && after.phase.Running? && Inv(after)
            && var taken := Ordered(AfterFeedPhase(s.phase, f.id, f.text).pending);
               && |taken| == |qs| && |after.status.transcript| == s0.issued + |qs|
               && forall k | 0 <= k < |qs| ::
                    && FirstText(all, qs[k].id) == Some(taken[k])
                    && Texts(after.sent, s0.issued + k) == [taken[k]]
                    && after.status.transcript[s0.issued + k].response == LastText(all, qs[k].id)
  {
    hide *;
    var s := RoundState(s0, qs, fs);
    RoundGoesOn(s0, qs, fs);
    CoveringIsFirst(qs, fs, f);
    RoundReply(s0, qs, fs, s, f);
    RoundStep(s0, qs, fs, s, f);
    ClosingReplies(s0, qs, fs, s, f);
    var after := AfterFeedOne(s, f.id, f.text);
    ClosedParts(s0.issued, qs, fs + [f], after.sent, after.status.transcript);
  }

  lemma ClosedParts(base: nat, qs: seq<Query>, fs: seq<Reply>, sent: seq<Sent>, es: seq<Entry>)
    requires Covered(fs, qs) && DeliveredFirst(base, qs, fs, sent) && RecordedLast(base, qs, fs, es)
    ensures |es| == base + |qs|
    ensures forall k | 0 <= k < |qs| ::
              && FirstText(fs, qs[k].id).Some? && Texts(sent, base + k) == [FirstText(fs, qs[k].id).value]
              && es[base + k].response == LastText(fs, qs[k].id)
  {
    hide FirstText, LastText, Texts;
    forall k | 0 <= k < |qs|
      ensures FirstText(fs, qs[k].id).Some? && Texts(sent, base + k) == [FirstText(fs, qs[k].id).value]
      ensures es[base + k].response == LastText(fs, qs[k].id)
    {
      assert es[base..][k] == es[base + k];
    }
  }

  /** Only the first text for an id of the batch can cover it. */
  lemma CoveringIsFirst(qs: seq<Query>, fs: seq<Reply>, f: Reply)
    requires !Covered(fs, qs) && Covered(fs + [f], qs)
    ensures HasId(qs, f.id) && FirstText(fs, f.id).None?
  {
    hide FirstText;
    var k :| 0 <= k < |qs| && FirstText(fs, qs[k].id).None?;
    FirstTextSnoc(fs, f, qs[k].id);
    assert FirstText(fs + [f], qs[k].id).Some?;
  }

  lemma ClosingReplies(s0: State, qs: seq<Query>, fs: seq<Reply>, s: State, f: Reply)
    requires InRound(s0, qs, fs, s) && HasId(qs, f.id) && FirstText(fs, f.id).None? && Covered(fs + [f], qs)
    ensures var ph := AfterFeedPhase(s.phase, f.id, f.text);
            && ph == Paused(Pending(qs, FirstTexts(qs, fs + [f])))
            && forall k | 0 <= k < |qs| :: Ordered(ph.pending)[k] == FirstText(fs + [f], qs[k].id).value
  {
    hide FirstText, DeliveredFirst, RecordedLast;
    FirstTextsSnoc(qs, fs, f);
    forall k | 0 <= k < |qs|
      ensures qs[k].id in FirstTexts(qs, fs + [f])
    {
      assert HasId(qs, qs[k].id);
    }
  }

  /** What a rejected feed changes, exactly: nothing but the transcript, and that only
      when some entry has the id and the newest such entry does not show the text. */
  lemma RejectedFeedChanges(s: State, id: string, text: string)
    requires Inv(s) && FeedOneReply(s, id, text).FeedRejected?
    ensures var es, after := s.status.transcript, AfterFeedOne(s, id, text);
            && after == s.(status := s.status.(transcript := after.status.transcript))
            && (after.status.transcript != es
                <==> exists j | 0 <= j < |es| :: Newest(es, j, id) && es[j].response != Some(text))
            && (forall j | 0 <= j < |es| && !Newest(es, j, id) :: after.status.transcript[j] == es[j])
            && (forall j | 0 <= j < |es| && Newest(es, j, id) ::
                  after.status.transcript[j] == es[j].(response := Some(text)))
  {
    hide Inv, AfterFeedOne, LastIndex, FeedOneReply;
    FeedKeepsInv(s, id, text);
    RejectedKeepsInv(s, id, text);
    NewestIsLast(s.status.transcript, id);
    var es, es' := s.status.transcript, AfterFeedOne(s, id, text).status.transcript;
    if es' != es {
      var j :| 0 <= j < |es| && es'[j] != es[j];
      assert Newest(es, j, id);
    }
  }

  /** Entry j is the newest with this id. */
  predicate Newest(es: seq<Entry>, j: nat, id: string)
    requires j < |es|
  {
    es[j].queryId == id && forall i | j < i < |es| :: es[i].queryId != id
  }

  lemma NewestIsLast(es: seq<Entry>, id: string)
    ensures forall j: nat | j < |es| :: Newest(es, j, id) <==> LastIndex(es, id) == Some(j)
  {
    hide LastIndex;
    LastIndexIs(es, id);
  }

  /** A rejected second feed does overwrite the transcript: the reply delivered and
      kept is "x", the transcript says "y". */
  lemma RejectedFeedOverwrites()
    ensures var s1 := AfterWait(NEW_SESSION, Batch([Query("a", "", None), Query("b", "", None)]));
            var s2 := AfterFeedOne(s1, "a", "x");
            var s3 := AfterFeedOne(s2, "a", "y");
            && FeedOneReply(s2, "a", "y").FeedRejected?
            && Texts(s3.sent, 0) == ["x"]
            && s3.phase.Paused? && "a" in s3.phase.pending.responses && s3.phase.pending.responses["a"] == "x"
            && |s3.status.transcript| == 2 && s3.status.transcript[0].response == Some("y")
  {
    hide *;
    var qs, fs, y := [Query("a", "", None), Query("b", "", None)], [Reply("a", "x")], Reply("a", "y");
    var s1 := AfterWait(NEW_SESSION, Batch(qs));
    NewSessionInv();
    TwoFeeds(qs, fs, y);
    TwoIds(qs);
    NewIsRunning();
    FedOnce(qs, fs);
    RoundGoesOn(NEW_SESSION, qs, fs);
    RoundReply(NEW_SESSION, qs, fs, AfterFeedOne(s1, "a", "x"), y);
    RoundStep(NEW_SESSION, qs, fs, AfterFeedOne(s1, "a", "x"), y);
    ReadOff(qs, fs + [y], AfterFeedOne(AfterFeedOne(s1, "a", "x"), "a", "y"));
  }

  lemma NewIsRunning()
    ensures NEW_SESSION.phase.Running? && NEW_SESSION.issued == 0
  {
  }

  lemma FedOnce(qs: seq<Query>, fs: seq<Reply>)
    requires fs == [Reply("a", "x")]
    ensures RoundState(NEW_SESSION, qs, fs) == AfterFeedOne(AfterWait(NEW_SESSION, Batch(qs)), "a", "x")
  {
    hide AfterFeedOne, AfterWait;
    assert fs[..0] == [];
    assert FeedAll(AfterWait(NEW_SESSION, Batch(qs)), []) == AfterWait(NEW_SESSION, Batch(qs));
  }

  lemma TwoFeeds(qs: seq<Query>, fs: seq<Reply>, y: Reply)
    requires fs == [Reply("a", "x")] && y == Reply("a", "y")
    requires qs == [Query("a", "", None), Query("b", "", None)]
    ensures FirstText(fs, "a") == Some("x") == FirstText(fs + [y], "a") && LastText(fs + [y], "a") == Some("y")
    ensures !Covered(fs, qs)
  {
    assert fs[..0] == [] && (fs + [y])[..1] == fs;
    assert FirstText([], "b") == None == FirstText(fs, "b");
    assert qs[1].id == "b";
  }

  lemma TwoIds(qs: seq<Query>)
    requires qs == [Query("a", "", None), Query("b", "", None)]
    ensures DistinctIds(qs) && HasId(qs, "a") && qs[0].id == "a" && |qs| == 2
  {
    assert qs[0].id == "a";
  }

  lemma ReadOff(qs: seq<Query>, fs: seq<Reply>, s: State)
    requires |qs| == 2 && qs[0].id == "a" && FirstText(fs, "a") == Some("x") && LastText(fs, "a") == Some("y")
    requires s.issued == 2 && s.phase == Paused(Pending(qs, FirstTexts(qs, fs)))
    requires DeliveredFirst(0, qs, fs, s.sent) && RecordedLast(0, qs, fs, s.status.transcript)
    ensures Texts(s.sent, 0) == ["x"] && "a" in s.phase.pending.responses && s.phase.pending.responses["a"] == "x"
    ensures |s.status.transcript| == 2 && s.status.transcript[0].response == Some("y")
  {
    hide FirstText, LastText, Texts;
    assert HasId(qs, qs[0].id);
    assert Texts(s.sent, 0 + 0) == AsList(FirstText(fs, qs[0].id));
    assert s.status.transcript[0..][0].response == LastText(fs, qs[0].id);
  }
}

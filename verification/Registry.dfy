/** The session registry under concurrent callers: every lock section and every
    wait is one step, and steps of different tasks interleave freely. */
module Registry {
  import opened Execution
  import opened Json
  import opened Metrics
  import opened Sessions
  import opened SessionRuns

  /** Where a call stands: between its two lock sections, waiting for Lua with the
      session in hand, or about to put the session back. */
  datatype Pc =
    | BetweenSections(sid: string)
    | Waiting(sid: string, session: State)
    | Returning(sid: string, session: State)

  /** `used` are the session ids ever generated, `waits` counts the waits begun. */
  datatype World = World(sessions: map<string, State>, tasks: map<nat, Pc>, used: set<string>,
    waits: map<string, nat>)

  const EMPTY_WORLD := World(map[], map[], {}, map[])

  datatype Move =
    | Start(task: nat, sid: string)
    | FeedSection(task: nat, sid: string, queryId: string, text: string)
    | TakeSection(task: nat)
    | Lua(task: nat, ev: Event)
    | PutBack(task: nat)
    | Reap(ids: set<string>)

  /** New tasks and session ids are fresh; a task moves on from where it stands; a
      batch has distinct ids. */
  ghost predicate Enabled(w: World, m: Move) {
    match m
    case Start(t, sid) => t !in w.tasks && sid !in w.used
    case FeedSection(t, _, _, _) => t !in w.tasks
    case TakeSection(t) => t in w.tasks && w.tasks[t].BetweenSections?
    case Lua(t, ev) => t in w.tasks && w.tasks[t].Waiting? && (ev.Batch? ==> DistinctIds(ev.queries))
    case PutBack(t) => t in w.tasks && w.tasks[t].Returning?
    case Reap(_) => true
  }

  function WaitsOf(w: World, sid: string): nat {
    if sid in w.waits then w.waits[sid] else 0
  }

  ghost function Next(w: World, m: Move): World
    requires Enabled(w, m)
  {
    match m
    case Start(t, sid) =>
      w.(tasks := w.tasks[t := Waiting(sid, NEW_SESSION)], used := w.used + {sid}, waits := w.waits[sid := 1])
    case FeedSection(t, sid, queryId, text) =>
      if sid !in w.sessions then w
      else
        var s := w.sessions[sid];
        var fed := w.(sessions := w.sessions[sid := AfterFeedOne(s, queryId, text)]);
        if FeedOneReply(s, queryId, text) == Accepted(true) then fed.(tasks := w.tasks[t := BetweenSections(sid)])
        else fed
    case TakeSection(t) =>
      var sid := w.tasks[t].sid;
      if sid !in w.sessions then w.(tasks := w.tasks - {t})
      else
        w.(sessions := w.sessions - {sid}, tasks := w.tasks[t := Waiting(sid, w.sessions[sid])],
        waits := w.waits[sid := WaitsOf(w, sid) + 1])
    case Lua(t, ev) =>
      var pc := w.tasks[t];
      if WaitReplyOf(pc.session, ev).PausedOn? then
        w.(tasks := w.tasks[t := Returning(pc.sid, AfterWait(pc.session, ev))])
      else w.(tasks := w.tasks - {t})
    case PutBack(t) =>
      w.(sessions := w.sessions[w.tasks[t].sid := w.tasks[t].session], tasks := w.tasks - {t})
    case Reap(ids) => w.(sessions := w.sessions - ids)
  }

  // ----- the invariant -----

  predicate Holds(pc: Pc, sid: string) {
    pc.sid == sid && !pc.BetweenSections?
  }

  predicate Resumes(pc: Pc, sid: string) {
    pc == BetweenSections(sid)
  }

  /** A session in the map is paused, or running with a task on its way to take it;
      its waits so far match its rounds. */
  ghost predicate MapOk(w: World, sid: string)
    requires sid in w.sessions
  {
    var s := w.sessions[sid];
    && Inv(s) && (s.phase.Paused? || s.phase.Running?)
    && (s.phase.Running? <==> exists t | t in w.tasks :: Resumes(w.tasks[t], sid))
    && WaitsOf(w, sid) == s.status.rounds + (if s.phase.Running? then 0 else 1)
  }

  /** A held session is out of the map; a task waits only on a running one. */
  ghost predicate TaskOk(w: World, t: nat)
    requires t in w.tasks
  {
    var pc := w.tasks[t];
    && pc.sid in w.used
    && (!pc.BetweenSections? ==>
          && pc.sid !in w.sessions && Inv(pc.session) && WaitsOf(w, pc.sid) == pc.session.status.rounds + 1
          && (pc.Waiting? ==> pc.session.phase.Running?) && (pc.Returning? ==> pc.session.phase.Paused?))
  }

  /** No two tasks are at work on one session. */
  ghost predicate Exclusive(w: World) {
    forall t, u | t in w.tasks && u in w.tasks && w.tasks[t].sid == w.tasks[u].sid :: t == u
  }

  ghost predicate WorldInv(w: World) {
    && w.sessions.Keys <= w.used
    && (forall sid | sid in w.sessions :: MapOk(w, sid))
    && (forall t | t in w.tasks :: TaskOk(w, t))
    && Exclusive(w)
  }

  lemma EmptyWorldInv()
    ensures WorldInv(EMPTY_WORLD)
  {
  }

  // ----- each move keeps it -----

  /** A feed that completes the round turns a paused session running; every other
      feed leaves the phase and the rounds as they are. */
  lemma FeedMoves(s: State, id: string, text: string)
    requires Inv(s) && (s.phase.Paused? || s.phase.Running?)
    ensures var a := AfterFeedOne(s, id, text);
            && Inv(a)
            && (if FeedOneReply(s, id, text) == Accepted(true)
                then s.phase.Paused? && a.phase.Running? && a.status.rounds == s.status.rounds + 1
                else a.phase.Paused? == s.phase.Paused? && a.phase.Running? == s.phase.Running?
                     && a.status.rounds == s.status.rounds)
  {
    hide Inv, AllAnswered, FeedPending, OnResponseFed;
    FeedKeepsInv(s, id, text);
    InvPhase(s);
    FeedRounds(s, id, text);
  }

  lemma InvPhase(s: State)
    requires Inv(s)
    ensures ValidPhase(s.phase)
  {
  }

  lemma FeedRounds(s: State, id: string, text: string)
    requires ValidPhase(s.phase)
    ensures var a := AfterFeedOne(s, id, text);
            if FeedOneReply(s, id, text) == Accepted(true)
            then s.phase.Paused? && a.phase.Running? && a.status.rounds == s.status.rounds + 1
            else a.phase.Paused? == s.phase.Paused? && a.phase.Running? == s.phase.Running?
                 && a.status.rounds == s.status.rounds
  {
    hide AllAnswered, FeedPending, Answered;
    if s.phase.Paused? {
      AfterFeedFull(s.phase.pending, id, text);
    }
  }

  lemma AfterFeedFull(p: Pending, id: string, text: string)
    requires p.Valid()
    ensures FeedPending(p, id, text) == Fed(true) ==> AllAnswered(AfterFeed(p, id, text))
  {
    AfterFeedValid(p, id, text);
    RemainingCounts(AfterFeed(p, id, text));
  }

  ghost predicate SameResumers(w: World, w': World, sid: string) {
    && (forall t | t in w.tasks && Resumes(w.tasks[t], sid) :: t in w'.tasks && w'.tasks[t] == w.tasks[t])
    && (forall t | t in w'.tasks && Resumes(w'.tasks[t], sid) :: t in w.tasks && w.tasks[t] == w'.tasks[t])
  }

  /** Nothing about this session differs, except perhaps its place. */
  ghost predicate SameSession(w: World, w': World, sid: string) {
    && (sid in w.sessions <==> sid in w'.sessions) && WaitsOf(w', sid) == WaitsOf(w, sid)
    && (sid in w.sessions ==> w'.sessions[sid] == w.sessions[sid])
  }

  lemma MapFrame(w: World, w': World, sid: string)
    requires sid in w.sessions && MapOk(w, sid) && SameSession(w, w', sid) && SameResumers(w, w', sid)
    ensures MapOk(w', sid)
  {
    hide Inv, WaitsOf;
  }

  lemma TaskFrame(w: World, w': World, t: nat)
    requires t in w.tasks && t in w'.tasks && w'.tasks[t] == w.tasks[t] && TaskOk(w, t)
    requires w.used <= w'.used && SameSession(w, w', w.tasks[t].sid)
    ensures TaskOk(w', t)
  {
    hide Inv, WaitsOf;
  }

  /** One task moves and only its session changes. */
  ghost predicate Local(w: World, w': World, t: nat, sid: string) {
    && w.used <= w'.used && w'.sessions.Keys <= w'.used
    && (forall u | u != t :: u in w.tasks <==> u in w'.tasks)
    && (forall u | u != t && u in w.tasks :: w'.tasks[u] == w.tasks[u])
    && (t in w.tasks ==> w.tasks[t].sid == sid) && (t in w'.tasks ==> w'.tasks[t].sid == sid)
    && (forall id | id != sid :: SameSession(w, w', id))
  }

  lemma LocalMove(w: World, w': World, t: nat, sid: string)
    requires WorldInv(w) && Local(w, w', t, sid)
    requires forall u | u in w.tasks && u != t :: w.tasks[u].sid != sid
    requires sid in w'.sessions ==> MapOk(w', sid)
    requires t in w'.tasks ==> TaskOk(w', t)
    ensures WorldInv(w')
  {
    hide Inv, MapOk, TaskOk, WaitsOf, SameSession;
    forall id | id in w'.sessions
      ensures MapOk(w', id)
    {
      if id != sid {
        SameIsSame(w, w', id);
        MapFrame(w, w', id);
      }
    }
    forall u | u in w'.tasks
      ensures TaskOk(w', u)
    {
      if u != t {
        TaskFrame(w, w', u);
      }
    }
  }

  lemma SameIsSame(w: World, w': World, id: string)
    requires SameSession(w, w', id)
    ensures id in w.sessions <==> id in w'.sessions
  {
  }

  /** Only a session in the map changes. */
  lemma SessionMove(w: World, w': World, sid: string)
    requires WorldInv(w) && sid in w.sessions && sid in w'.sessions && MapOk(w', sid)
    requires w'.tasks == w.tasks && w'.used == w.used && w'.sessions.Keys == w.sessions.Keys && w'.waits == w.waits
    requires forall id | id != sid :: SameSession(w, w', id)
    ensures WorldInv(w')
  {
    hide Inv, MapOk, WaitsOf;
    forall id | id in w'.sessions
      ensures MapOk(w', id)
    {
      if id != sid {
        MapFrame(w, w', id);
      }
    }
    WaitsSame(w, w');
    forall u | u in w'.tasks
      ensures TaskOk(w', u)
    {
      assert TaskOk(w, u);
    }
  }

  lemma StartKeeps(w: World, t: nat, sid: string)
    requires WorldInv(w) && Enabled(w, Start(t, sid))
    ensures WorldInv(Next(w, Start(t, sid)))
  {
    hide Inv, MapOk;
    NewSessionInv();
    forall u | u in w.tasks
      ensures w.tasks[u].sid != sid
    {
      assert TaskOk(w, u);
    }
    LocalMove(w, Next(w, Start(t, sid)), t, sid);
  }

  lemma FeedSectionKeeps(w: World, t: nat, sid: string, queryId: string, text: string)
    requires WorldInv(w) && Enabled(w, FeedSection(t, sid, queryId, text))
    ensures WorldInv(Next(w, FeedSection(t, sid, queryId, text)))
  {
    hide Inv, AfterFeedOne, FeedOneReply, TaskOk, MapOk, WaitsOf;
    if sid in w.sessions {
      var w', s := Next(w, FeedSection(t, sid, queryId, text)), w.sessions[sid];
      NobodyAtWork(w, sid);
      WaitsSame(w, w');
      FedSession(w, t, sid, queryId, text);
      if FeedOneReply(s, queryId, text) == Accepted(true) {
        JustBetween(w', t);
        LocalMove(w, w', t, sid);
      } else {
        SessionMove(w, w', sid);
      }
    }
  }

  lemma FedSession(w: World, t: nat, sid: string, queryId: string, text: string)
    requires WorldInv(w) && Enabled(w, FeedSection(t, sid, queryId, text)) && sid in w.sessions
    ensures MapOk(Next(w, FeedSection(t, sid, queryId, text)), sid)
    ensures FeedOneReply(w.sessions[sid], queryId, text) == Accepted(true) ==> w.sessions[sid].phase.Paused?
  {
    hide Inv, AfterFeedOne, FeedOneReply, TaskOk;
    var w', s := Next(w, FeedSection(t, sid, queryId, text)), w.sessions[sid];
    assert MapOk(w, sid);
    FeedMoves(s, queryId, text);
    if FeedOneReply(s, queryId, text) == Accepted(true) {
      assert Resumes(w'.tasks[t], sid);
    }
  }

  lemma JustBetween(w: World, t: nat)
    requires t in w.tasks && w.tasks[t].BetweenSections? && w.tasks[t].sid in w.used
    ensures TaskOk(w, t)
  {
  }

  /** A task at work on a session in the map is about to take it, and it runs. */
  lemma NobodyAtWork(w: World, sid: string)
    requires WorldInv(w) && sid in w.sessions
    ensures forall t | t in w.tasks && w.tasks[t].sid == sid ::
              w.sessions[sid].phase.Running? && Resumes(w.tasks[t], sid)
  {
    hide Inv;
    assert MapOk(w, sid);
    forall t | t in w.tasks && w.tasks[t].sid == sid
      ensures w.sessions[sid].phase.Running? && Resumes(w.tasks[t], sid)
    {
      assert TaskOk(w, t);
      assert Resumes(w.tasks[t], sid);
    }
  }

  lemma TakeSectionKeeps(w: World, t: nat)
    requires WorldInv(w) && Enabled(w, TakeSection(t))
    ensures WorldInv(Next(w, TakeSection(t)))
  {
    hide Inv, MapOk, TaskOk, WaitsOf;
    var w', sid := Next(w, TakeSection(t)), w.tasks[t].sid;
    if sid in w.sessions {
      TakenTask(w, t);
    }
    TakeWaits(w, t);
    LocalMove(w, w', t, sid);
  }

  lemma TakeWaits(w: World, t: nat)
    requires Enabled(w, TakeSection(t))
    ensures forall id | id != w.tasks[t].sid :: WaitsOf(Next(w, TakeSection(t)), id) == WaitsOf(w, id)
  {
  }

  lemma TakenTask(w: World, t: nat)
    requires WorldInv(w) && Enabled(w, TakeSection(t)) && w.tasks[t].sid in w.sessions
    ensures TaskOk(Next(w, TakeSection(t)), t)
  {
    hide Inv;
    assert MapOk(w, w.tasks[t].sid);
    assert Resumes(w.tasks[t], w.tasks[t].sid);
  }

  lemma LuaKeeps(w: World, t: nat, ev: Event)
    requires WorldInv(w) && Enabled(w, Lua(t, ev))
    ensures WorldInv(Next(w, Lua(t, ev)))
    ensures !WaitReplyOf(w.tasks[t].session, ev).InvalidTransition?
  {
    hide Inv, MapOk, AfterWait, WaitReplyOf, WaitsOf;
    var w', pc := Next(w, Lua(t, ev)), w.tasks[t];
    assert TaskOk(w, t);
    WaitKeepsInv(pc.session, ev);
    WaitMoves(pc.session, ev);
    assert forall id :: WaitsOf(w', id) == WaitsOf(w, id) by { WaitsSame(w, w'); }
    LocalMove(w, w', t, pc.sid);
  }

  lemma WaitsSame(w: World, w': World)
    requires w'.waits == w.waits
    ensures forall id :: WaitsOf(w', id) == WaitsOf(w, id)
  {
  }

  lemma WaitMoves(s: State, ev: Event)
    ensures WaitReplyOf(s, ev).PausedOn? ==>
              AfterWait(s, ev).phase.Paused? && AfterWait(s, ev).status.rounds == s.status.rounds
  {
  }

  lemma PutBackKeeps(w: World, t: nat)
    requires WorldInv(w) && Enabled(w, PutBack(t))
    ensures WorldInv(Next(w, PutBack(t)))
  {
    hide Inv;
    var w', pc := Next(w, PutBack(t)), w.tasks[t];
    assert TaskOk(w, t);
    hide TaskOk;
    forall u | u in w'.tasks
      ensures !Resumes(w'.tasks[u], pc.sid)
    {
      assert w.tasks[u].sid != pc.sid;
    }
    assert MapOk(w', pc.sid);
    hide MapOk;
    LocalMove(w, w', t, pc.sid);
  }

  lemma ReapKeeps(w: World, ids: set<string>)
    requires WorldInv(w)
    ensures WorldInv(Next(w, Reap(ids)))
  {
    hide Inv, WaitsOf;
    var w' := Next(w, Reap(ids));
    WaitsSame(w, w');
    forall id | id in w'.sessions
      ensures MapOk(w', id)
    {
      hide MapOk;
      assert MapOk(w, id);
      MapFrame(w, w', id);
    }
    forall u | u in w'.tasks
      ensures TaskOk(w', u)
    {
      hide MapOk;
      assert TaskOk(w, u);
    }
  }

  lemma MoveKeepsInv(w: World, m: Move)
    requires WorldInv(w) && Enabled(w, m)
    ensures WorldInv(Next(w, m))
  {
    hide WorldInv, Next;
    match m {
      case Start(t, sid) => StartKeeps(w, t, sid);
      case FeedSection(t, sid, queryId, text) => FeedSectionKeeps(w, t, sid, queryId, text);
      case TakeSection(t) => TakeSectionKeeps(w, t);
      case Lua(t, ev) => LuaKeeps(w, t, ev);
      case PutBack(t) => PutBackKeeps(w, t);
      case Reap(ids) => ReapKeeps(w, ids);
    }
  }

  // ----- every interleaving -----

  /** ws is an execution of ms: every move is enabled where it is made. */
  ghost predicate IsRun(ws: seq<World>, ms: seq<Move>) {
    && |ws| == |ms| + 1
    && forall n | 0 <= n < |ms| :: StepAt(ws[n], ms[n], ws[n + 1])
  }

  ghost predicate StepAt(w: World, m: Move, w': World) {
    Enabled(w, m) && w' == Next(w, m)
  }

  /** Exactly one of: in the map, held by one task, gone. */
  ghost predicate InOnePlace(w: World, sid: string) {
    && (sid in w.sessions ==> forall t | t in w.tasks :: !Holds(w.tasks[t], sid))
    && (forall t, u | t in w.tasks && u in w.tasks && Holds(w.tasks[t], sid) && Holds(w.tasks[u], sid) :: t == u)
  }

  /** A running session in the map has exactly one task about to take it. */
  ghost predicate OneResumer(w: World, sid: string)
    requires sid in w.sessions
  {
    w.sessions[sid].phase.Running? <==>
    exists t | t in w.tasks :: Resumes(w.tasks[t], sid) && forall u | u in w.tasks && Resumes(w.tasks[u], sid) :: u == t
  }

  /** Over every interleaving: sessions are in one place, a running one in the map
      has one task that will take it, every wait is made on a running session and so
      succeeds, and each session has begun one wait for its start and one for each
      round it completed, so none is resumed twice. */
  lemma {:induction false} EveryInterleaving(ws: seq<World>, ms: seq<Move>, n: nat)
    requires IsRun(ws, ms) && ws[0] == EMPTY_WORLD && n < |ws|
    ensures WorldInv(ws[n])
    ensures forall sid :: InOnePlace(ws[n], sid)
    ensures forall sid | sid in ws[n].sessions :: OneResumer(ws[n], sid)
    ensures forall t | t in ws[n].tasks && ws[n].tasks[t].Waiting? ::
              && ws[n].tasks[t].session.phase.Running?
              && WaitsOf(ws[n], ws[n].tasks[t].sid) == ws[n].tasks[t].session.status.rounds + 1
  {
    hide WorldInv, InOnePlace, OneResumer, Next, Enabled;
    if n == 0 {
      EmptyWorldInv();
    } else {
      EveryInterleaving(ws, ms, n - 1);
      assert StepAt(ws[n - 1], ms[n - 1], ws[n - 1 + 1]);
      MoveKeepsInv(ws[n - 1], ms[n - 1]);
    }
    forall sid
      ensures InOnePlace(ws[n], sid)
      ensures sid in ws[n].sessions ==> OneResumer(ws[n], sid)
    {
      PlaceOf(ws[n], sid);
    }
    WaitersRun(ws[n]);
  }

  lemma PlaceOf(w: World, sid: string)
    requires WorldInv(w)
    ensures InOnePlace(w, sid) && (sid in w.sessions ==> OneResumer(w, sid))
  {
    hide Inv;
    if sid in w.sessions {
      assert MapOk(w, sid);
      forall t | t in w.tasks
        ensures !Holds(w.tasks[t], sid)
      {
        assert TaskOk(w, t);
      }
      if t :| t in w.tasks && Resumes(w.tasks[t], sid) {
        assert forall u | u in w.tasks && Resumes(w.tasks[u], sid) :: u == t;
      }
    }
  }

  lemma WaitersRun(w: World)
    requires WorldInv(w)
    ensures forall t | t in w.tasks && w.tasks[t].Waiting? ::
              && w.tasks[t].session.phase.Running?
              && WaitsOf(w, w.tasks[t].sid) == w.tasks[t].session.status.rounds + 1
  {
    forall t | t in w.tasks && w.tasks[t].Waiting?
      ensures w.tasks[t].session.phase.Running?
      ensures WaitsOf(w, w.tasks[t].sid) == w.tasks[t].session.status.rounds + 1
    {
      assert TaskOk(w, t);
    }
  }

  /** The id was given out and its session is neither in the map nor held. */
  ghost predicate Gone(w: World, sid: string) {
    sid in w.used && sid !in w.sessions && forall t | t in w.tasks :: !Holds(w.tasks[t], sid)
  }

  /** A session once gone, reaped or finished, never comes back. */
  lemma {:induction false} GoneForever(ws: seq<World>, ms: seq<Move>, sid: string)
    requires IsRun(ws, ms) && Gone(ws[0], sid)
    ensures Gone(ws[|ws| - 1], sid)
  {
    if ms != [] {
      hide Gone, Enabled, Next;
      var n := |ms|;
      assert StepAt(ws[n - 1], ms[n - 1], ws[n - 1 + 1]);
      forall k | 0 <= k < n - 1
        ensures StepAt(ws[..n][k], ms[..n - 1][k], ws[..n][k + 1])
      {
        assert StepAt(ws[k], ms[k], ws[k + 1]);
      }
      GoneForever(ws[..n], ms[..n - 1], sid);
      GoneStep(ws[n - 1], ms[n - 1], sid);
    }
  }

  lemma GoneStep(w: World, m: Move, sid: string)
    requires Enabled(w, m) && Gone(w, sid)
    ensures Gone(Next(w, m), sid)
  {
    hide AfterFeedOne, AfterWait, WaitReplyOf, FeedOneReply;
  }
}

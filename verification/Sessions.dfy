/** A session: the execution state, its metrics, and the reply channels of the
    queries it waits for. */
module Sessions {
  import opened Execution
  import opened Json
  import opened Metrics

  /** One use of a reply channel. Channels are numbered in the order the queries
      of a session are issued. */
  datatype Sent = Sent(channel: nat, text: string)

  datatype State = State(phase: Phase, status: Status, respTxs: map<string, nat>, sent: seq<Sent>, issued: nat)

  const NEW_SESSION := State(Running, EMPTY_STATUS, map[], [], 0)

  /** What the Lua side does next: issue a batch, or end in one of three ways. */
  datatype Event =
    | Batch(queries: seq<Query>)
    | Done(result: Json)
    | BadJson(error: string)
    | Crashed(error: string)

  datatype WaitReply =
    | PausedOn(queries: seq<Query>)
    | Finished(outcome: Phase, metrics: Status)
    | InvalidTransition

  datatype FeedOutcome = Accepted(complete: bool) | FeedRejected(error: FeedError) | BadTransition

  // ----- one feed -----

  /** Observer first, then the channel, then the state machine. */
  ghost function Notified(s: State, id: string, text: string): State {
    var heard := s.(status := OnResponseFed(s.status, id, text));
    if id in s.respTxs then
      heard.(sent := s.sent + [Sent(s.respTxs[id], text)], respTxs := s.respTxs - {id})
    else heard
  }

  ghost function AfterFeedOne(s: State, id: string, text: string): State {
    var r := FeedPhase(s.phase, id, text);
    var fed := Notified(s, id, text).(phase := AfterFeedPhase(s.phase, id, text));
    if r.Fed? && r.complete then fed.(phase := Apply(fed.phase, Take), status := OnResumed(fed.status)) else fed
  }

  ghost function FeedOneReply(s: State, id: string, text: string): FeedOutcome {
    var r := FeedPhase(s.phase, id, text);
    if r.Rejected? then FeedRejected(r.error) else Accepted(r.complete)
  }

  // ----- one wait -----

  /** Senders by query id; a repeated id keeps the last sender. */
  function Senders(open: map<string, nat>, qs: seq<Query>, base: nat): map<string, nat> {
    if qs == [] then open
    else Senders(open, qs[..|qs| - 1], base)[qs[|qs| - 1].id := base + |qs| - 1]
  }

  ghost function AfterWait(s: State, ev: Event): State {
    match ev
    case Batch(qs) =>
      var linked := s.(respTxs := Senders(s.respTxs, qs, s.issued), issued := s.issued + |qs|);
      if s.phase.Running? then linked.(phase := Apply(s.phase, Pause(qs)), status := OnPaused(s.status, qs))
      else linked
    case Done(result) =>
      if s.phase.Running? then s.(phase := Completed(result), status := OnEnded(s.status)) else s
    case BadJson(error) =>
      if s.phase.Running? then s.(phase := Failed("JSON parse: " + error), status := OnEnded(s.status)) else s
    case Crashed(error) =>
      if s.phase.Running? then s.(phase := Failed(error), status := OnEnded(s.status)) else s
  }

  ghost function WaitReplyOf(s: State, ev: Event): WaitReply {
    if !s.phase.Running? then InvalidTransition
    else if ev.Batch? then PausedOn(ev.queries)
    else Finished(AfterWait(s, ev).phase, AfterWait(s, ev).status)
  }

  // ----- the object -----

  class Session {
    const state: ExecutionState
    const observer: MetricsObserver
    var metrics: SessionStatus
    var respTxs: map<string, nat>
    var sent: seq<Sent>
    var issued: nat

    ghost function Repr(): (objects: set<object>)
      reads this, state
      ensures this in objects && state in objects
    {
      {this, observer.auto, metrics} + state.Repr()
    }

    ghost function View(): State
      reads Repr()
    {
      State(state.View(), observer.auto.View(), respTxs, sent, issued)
    }

    /** Until the session ends, its metrics are the observer's. */
    ghost predicate Valid()
      reads Repr()
    {
      ValidPhase(state.View()) && (!IsTerminal(state.View()) ==> metrics == observer.auto)
    }

    constructor ()
      ensures Valid() && View() == NEW_SESSION && fresh(Repr())
    {
      var status := new SessionStatus();
      state := new ExecutionState();
      observer := new MetricsObserver(status);
      metrics := status;
      respTxs, sent, issued := map[], [], 0;
    }

    method FeedOne(id: string, response: string) returns (r: FeedOutcome)
      requires Valid()
      modifies Repr()
      ensures Valid() && View() == AfterFeedOne(old(View()), id, response)
      ensures fresh(Repr() - old(Repr()))
      ensures r == FeedOneReply(old(View()), id, response)
    {
      hide AfterFeed, OnResponseFed, FeedPending, AllAnswered;
      observer.ResponseFed(id, response);
      if id in respTxs {
        sent := sent + [Sent(respTxs[id], response)];
        respTxs := respTxs - {id};
      }
      var fed := state.Feed(id, response);
      if fed.Rejected? {
        return FeedRejected(fed.error);
      }
      if fed.complete {
        var taken := state.TakeResponses();
        if taken.Err? {
          return BadTransition;
        }
        observer.Resumed();
      }
      r := Accepted(fed.complete);
    }

    method WaitEvent(ev: Event) returns (r: WaitReply)
      requires Valid()
      modifies Repr()
      ensures Valid() && View() == AfterWait(old(View()), ev)
      ensures fresh(Repr() - old(Repr()))
      ensures r == WaitReplyOf(old(View()), ev)
    {
      match ev {
        case Done(result) =>
          var ok := state.CompleteWith(result);
          if !ok {
            return InvalidTransition;
          }
          observer.Ended();
          var taken := TakeMetrics();
          r := Finished(Completed(result), taken);
        case BadJson(error) =>
          r := FailWith("JSON parse: " + error);
        case Crashed(error) =>
          r := FailWith(error);
        case Batch(queries) =>
          LinkSenders(queries);
          var ok := state.PauseOn(queries);
          if !ok {
            return InvalidTransition;
          }
          observer.Paused(queries);
          r := PausedOn(queries);
      }
    }

    method LinkSenders(queries: seq<Query>)
      modifies this`respTxs, this`issued
      ensures respTxs == Senders(old(respTxs), queries, old(issued)) && issued == old(issued) + |queries|
    {
      for i := 0 to |queries|
        invariant respTxs == Senders(old(respTxs), queries[..i], old(issued)) && issued == old(issued) + i
      {
        assert queries[..i + 1][..i] == queries[..i];
        respTxs := respTxs[queries[i].id := issued];
        issued := issued + 1;
      }
      assert queries[..|queries|] == queries;
    }

    method FailWith(msg: string) returns (r: WaitReply)
      requires Valid()
      modifies Repr()
      ensures Valid() && fresh(Repr() - old(Repr()))
      ensures View() == if old(View()).phase.Running?
                        then old(View()).(phase := Failed(msg), status := OnEnded(old(View()).status))
                        else old(View())
      ensures r == if old(View()).phase.Running? then Finished(Failed(msg), View().status) else InvalidTransition
    {
      var ok := state.FailWith(msg);
      if !ok {
        return InvalidTransition;
      }
      observer.Ended();
      var taken := TakeMetrics();
      r := Finished(Failed(msg), taken);
    }

    /** The one open query, when there is exactly one. */
    method SolePendingId() returns (r: Result<string>)
      ensures r.Ok? <==> |respTxs| == 1
      ensures r.Ok? ==> respTxs.Keys == {r.value}
    {
      var keys := respTxs.Keys;
      if |keys| == 0 {
        return Err("no pending queries");
      }
      var id :| id in keys;
      if |keys| == 1 {
        assert keys == {id} by { assert |keys - {id}| == 0; }
        return Ok(id);
      }
      r := Err("queries pending; specify query_id explicitly");
    }

    /** Hand out the metrics and leave fresh ones behind. */
    method TakeMetrics() returns (taken: Status)
      modifies this`metrics
      ensures taken == old(metrics.View()) && fresh(metrics) && metrics.View() == EMPTY_STATUS
    {
      taken := metrics.View();
      metrics := new SessionStatus();
    }
  }
}

/** The join barrier for LLM replies and the execution state machine around it. */
module Execution {
  import opened Json

  datatype Query = Query(id: string, prompt: string, system: Option<string>)

  datatype FeedError =
    | UnknownQuery(id: string)
    | AlreadyResponded(id: string)
    | InvalidState(expected: string, actual: string)

  datatype FeedReply = Fed(complete: bool) | Rejected(error: FeedError)

  predicate DistinctIds(qs: seq<Query>) {
    forall i, j | 0 <= i < j < |qs| :: qs[i].id != qs[j].id
  }

  predicate HasId(qs: seq<Query>, id: string) {
    exists i | 0 <= i < |qs| :: qs[i].id == id
  }

  function IdsOf(qs: seq<Query>): (ids: set<string>)
    ensures forall id :: id in ids <==> HasId(qs, id)
  {
    set i | 0 <= i < |qs| :: qs[i].id
  }

  // ----- insertion-ordered collection -----

  function IndexOf(qs: seq<Query>, id: string): (i: nat)
    requires HasId(qs, id)
    ensures i < |qs| && qs[i].id == id && forall j | 0 <= j < i :: qs[j].id != id
  {
    if qs[0].id == id then 0
    else
      assert HasId(qs[1..], id) by {
        var i :| 0 <= i < |qs| && qs[i].id == id;
        assert qs[1..][i - 1].id == id;
      }
      1 + IndexOf(qs[1..], id)
  }

  /** A repeated id keeps its first position and takes the later value. */
  function Put(qs: seq<Query>, q: Query): seq<Query> {
    if HasId(qs, q.id) then qs[IndexOf(qs, q.id) := q] else qs + [q]
  }

  function Collect(qs: seq<Query>): seq<Query> {
    if qs == [] then [] else Put(Collect(qs[..|qs| - 1]), qs[|qs| - 1])
  }

  lemma PutKeeps(qs: seq<Query>, q: Query)
    requires DistinctIds(qs)
    ensures DistinctIds(Put(qs, q)) && IdsOf(Put(qs, q)) == IdsOf(qs) + {q.id}
  {
    var out := Put(qs, q);
    forall i | 0 <= i < |qs|
      ensures out[i].id == qs[i].id
    {
    }
    assert HasId(out, q.id) by {
      if HasId(qs, q.id) {
        assert out[IndexOf(qs, q.id)].id == q.id;
      } else {
        assert out[|qs|].id == q.id;
      }
    }
    forall id
      ensures id in IdsOf(out) <==> id in IdsOf(qs) || id == q.id
    {
      if HasId(qs, id) {
        assert out[IndexOf(qs, id)].id == id;
      }
    }
  }

  /** Collecting leaves one query per id, the ids being those issued; a batch of
      distinct ids comes through unchanged and in order. */
  lemma {:induction false} CollectKeepsIds(qs: seq<Query>)
    ensures DistinctIds(Collect(qs)) && IdsOf(Collect(qs)) == IdsOf(qs)
    ensures Collect(qs) == qs <==> DistinctIds(qs)
  {
    if qs != [] {
      hide IdsOf;
      var n := |qs| - 1;
      var front := qs[..n];
      assert qs == front + [qs[n]];
      CollectKeepsIds(front);
      PutKeeps(Collect(front), qs[n]);
      IdsSnoc(front, qs[n]);
      if DistinctIds(qs) {
        assert DistinctIds(front);
        assert !HasId(front, qs[n].id);
      }
    }
  }

  lemma IdsSnoc(qs: seq<Query>, q: Query)
    ensures IdsOf(qs + [q]) == IdsOf(qs) + {q.id}
  {
    var out := qs + [q];
    assert out[|qs|] == q;
    forall id
      ensures id in IdsOf(out) <==> id in IdsOf(qs) || id == q.id
    {
      if HasId(qs, id) {
        assert out[IndexOf(qs, id)].id == id;
      }
    }
  }

  // ----- the barrier -----

  datatype Pending = Pending(queries: seq<Query>, responses: map<string, string>) {
    ghost predicate Valid() {
      DistinctIds(queries) && responses.Keys <= IdsOf(queries)
    }
  }

  function FeedPending(p: Pending, id: string, text: string): FeedReply {
    if !HasId(p.queries, id) then Rejected(UnknownQuery(id))
    else if id in p.responses then Rejected(AlreadyResponded(id))
    else Fed(|p.responses| + 1 == |p.queries|)
  }

  function AfterFeed(p: Pending, id: string, text: string): Pending {
    if FeedPending(p, id, text).Fed? then p.(responses := p.responses[id := text]) else p
  }

  /** Every query has its reply. */
  ghost predicate AllAnswered(p: Pending) {
    forall i | 0 <= i < |p.queries| :: p.queries[i].id in p.responses
  }

  /** The replies in issue order; a missing one reads as the empty string. */
  function Ordered(p: Pending): (texts: seq<string>)
    ensures |texts| == |p.queries|
    ensures forall i | 0 <= i < |texts| ::
        texts[i] == if p.queries[i].id in p.responses then p.responses[p.queries[i].id] else ""
  {
    seq(|p.queries|, i requires 0 <= i < |p.queries| =>
      if p.queries[i].id in p.responses then p.responses[p.queries[i].id] else "")
  }

  function Unanswered(qs: seq<Query>, responses: map<string, string>): nat {
    if qs == [] then 0
    else
      Unanswered(qs[..|qs| - 1], responses) + if qs[|qs| - 1].id in responses then 0 else 1
  }

  function OpenIds(ids: set<string>, responses: map<string, string>): set<string> {
    set id | id in ids && id !in responses
  }

  function DoneIds(ids: set<string>, responses: map<string, string>): set<string> {
    set id | id in ids && id in responses
  }

  lemma AddId(ids: set<string>, id: string, responses: map<string, string>)
    requires id !in ids
    ensures id !in OpenIds(ids, responses) && id !in DoneIds(ids, responses)
    ensures var done := id in responses;
            && OpenIds(ids + {id}, responses) == OpenIds(ids, responses) + (if done then {} else {id})
            && DoneIds(ids + {id}, responses) == DoneIds(ids, responses) + (if done then {id} else {})
  {
  }

  lemma DistinctFront(qs: seq<Query>)
    requires qs != [] && DistinctIds(qs)
    ensures var front, last := qs[..|qs| - 1], qs[|qs| - 1].id;
            DistinctIds(front) && last !in IdsOf(front) && IdsOf(qs) == IdsOf(front) + {last}
  {
    hide IdsOf;
    assert qs == qs[..|qs| - 1] + [qs[|qs| - 1]];
    IdsSnoc(qs[..|qs| - 1], qs[|qs| - 1]);
  }

  lemma {:induction false} CountIds(qs: seq<Query>, responses: map<string, string>)
    requires DistinctIds(qs)
    ensures |OpenIds(IdsOf(qs), responses)| == Unanswered(qs, responses)
    ensures |DoneIds(IdsOf(qs), responses)| == |qs| - Unanswered(qs, responses)
  {
    if qs == [] {
      assert OpenIds(IdsOf(qs), responses) == {} == DoneIds(IdsOf(qs), responses);
    } else {
      hide IdsOf, OpenIds, DoneIds, HasId, DistinctIds;
      var n := |qs| - 1;
      DistinctFront(qs);
      CountIds(qs[..n], responses);
      AddId(IdsOf(qs[..n]), qs[n].id, responses);
    }
  }

  /** `remaining` counts the unanswered queries, and the length test behind
      `is_complete` says that none is left. */
  lemma RemainingCounts(p: Pending)
    requires p.Valid()
    ensures |p.queries| - |p.responses| == Unanswered(p.queries, p.responses)
    ensures |p.responses| == |p.queries| <==> AllAnswered(p)
  {
    CountIds(p.queries, p.responses);
    assert p.responses.Keys == DoneIds(IdsOf(p.queries), p.responses);
    UnansweredZero(p.queries, p.responses);
  }

  lemma {:induction false} UnansweredZero(qs: seq<Query>, responses: map<string, string>)
    ensures Unanswered(qs, responses) == 0 <==> forall i | 0 <= i < |qs| :: qs[i].id in responses
  {
    if qs != [] {
      var front := qs[..|qs| - 1];
      UnansweredZero(front, responses);
      assert forall i | 0 <= i < |front| :: front[i] == qs[i];
      if forall i | 0 <= i < |qs| :: qs[i].id in responses {
        assert forall i | 0 <= i < |front| :: front[i].id in responses;
      }
    }
  }

  class PendingQueries {
    var queries: seq<Query>
    var responses: map<string, string>

    function View(): Pending
      reads this
    {
      Pending(queries, responses)
    }

    constructor (issued: seq<Query>)
      ensures View() == Pending(Collect(issued), map[]) && View().Valid()
    {
      var collected: seq<Query> := [];
      for i := 0 to |issued|
        invariant collected == Collect(issued[..i])
      {
        assert issued[..i + 1][..i] == issued[..i];
        var q, at := issued[i], 0;
        while at < |collected| && collected[at].id != q.id
          invariant at <= |collected| && forall j | 0 <= j < at :: collected[j].id != q.id
        {
          at := at + 1;
        }
        collected := if at < |collected| then collected[at := q] else collected + [q];
      }
      assert issued[..|issued|] == issued;
      CollectKeepsIds(issued);
      queries, responses := collected, map[];
    }

    method Feed(id: string, response: string) returns (r: FeedReply)
      requires View().Valid()
      modifies this`responses
      ensures r == FeedPending(old(View()), id, response)
      ensures View() == AfterFeed(old(View()), id, response) && View().Valid()
      ensures r.Fed? ==> (r.complete <==> AllAnswered(View()))
    {
      if !HasId(queries, id) {
        return Rejected(UnknownQuery(id));
      }
      if id in responses {
        return Rejected(AlreadyResponded(id));
      }
      responses := responses[id := response];
      var complete := IsComplete();
      r := Fed(complete);
    }

    method Remaining() returns (n: nat)
      requires View().Valid()
      ensures n == Unanswered(queries, responses)
    {
      RemainingCounts(View());
      n := |queries| - |responses|;
    }

    method IsComplete() returns (b: bool)
      requires View().Valid()
      ensures b == (|responses| == |queries|) && (b <==> AllAnswered(View()))
    {
      RemainingCounts(View());
      b := |responses| == |queries|;
    }

    method IntoOrderedResponses() returns (texts: seq<string>)
      ensures texts == Ordered(View())
    {
      texts := [];
      for i := 0 to |queries|
        invariant |texts| == i
        invariant forall j | 0 <= j < i ::
            texts[j] == if queries[j].id in responses then responses[queries[j].id] else ""
      {
        var id := queries[i].id;
        texts := texts + [if id in responses then responses[id] else ""];
      }
    }
  }

  // ----- the state machine -----

  datatype PhaseOf<T> =
    | Running
    | Paused(pending: T)
    | Completed(result: Json)
    | Failed(error: string)
    | Cancelled

  type Phase = PhaseOf<Pending>

  function NameOf<T>(ph: PhaseOf<T>): string {
    match ph
    case Running => "Running"
    case Paused(_) => "Paused"
    case Completed(_) => "Completed"
    case Failed(_) => "Failed"
    case Cancelled => "Cancelled"
  }

  predicate IsTerminal(ph: Phase) {
    ph.Completed? || ph.Failed? || ph.Cancelled?
  }

  ghost predicate ValidPhase(ph: Phase) {
    ph.Paused? ==> ph.pending.Valid()
  }

  ghost function FeedPhase(ph: Phase, id: string, text: string): FeedReply {
    if ph.Paused? then FeedPending(ph.pending, id, text)
    else Rejected(InvalidState("Paused", NameOf(ph)))
  }

  ghost function AfterFeedPhase(ph: Phase, id: string, text: string): Phase {
    if ph.Paused? then Paused(AfterFeed(ph.pending, id, text)) else ph
  }

  ghost predicate IsFull(ph: Phase) {
    ph.Paused? && AllAnswered(ph.pending)
  }

  /** The transitions other than feeding. */
  datatype Op =
    | Take
    | Complete(result: Json)
    | Fail(error: string)
    | Pause(queries: seq<Query>)
    | Cancel

  ghost predicate Allowed(ph: Phase, op: Op) {
    match op
    case Take => IsFull(ph)
    case Cancel => ph.Running? || ph.Paused?
    case _ => ph.Running?
  }

  ghost function Apply(ph: Phase, op: Op): Phase {
    if !Allowed(ph, op) then ph
    else
      match op
      case Take => Running
      case Complete(result) => Completed(result)
      case Fail(error) => Failed(error)
      case Pause(queries) => Paused(Pending(Collect(queries), map[]))
      case Cancel => Cancelled
  }

  class ExecutionState {
    var phase: PhaseOf<PendingQueries>

    ghost function View(): Phase
      reads this, if phase.Paused? then {phase.pending} else {}
    {
      match phase
      case Running => Running
      case Paused(pending) => Paused(pending.View())
      case Completed(result) => Completed(result)
      case Failed(error) => Failed(error)
      case Cancelled => Cancelled
    }

    ghost function Repr(): set<object>
      reads this
    {
      {this} + if phase.Paused? then {phase.pending} else {}
    }

    constructor ()
      ensures View() == Running && Repr() == {this}
    {
      phase := Running;
    }

    method Feed(id: string, response: string) returns (r: FeedReply)
      requires ValidPhase(View())
      modifies Repr()
      ensures phase == old(phase)
      ensures r == FeedPhase(old(View()), id, response)
      ensures View() == AfterFeedPhase(old(View()), id, response) && ValidPhase(View())
      ensures r.Fed? ==> (r.complete <==> IsFull(View()))
    {
      if !phase.Paused? {
        return Rejected(InvalidState("Paused", NameOf(phase)));
      }
      r := phase.pending.Feed(id, response);
    }

    method Remaining() returns (n: nat)
      requires ValidPhase(View())
      ensures n == if View().Paused? then Unanswered(View().pending.queries, View().pending.responses) else 0
    {
      if !phase.Paused? {
        return 0;
      }
      n := phase.pending.Remaining();
    }

    /** The replies in issue order, once and only when all are in; otherwise the
        state is put back as it was. */
    method TakeResponses() returns (r: Result<seq<string>>)
      requires ValidPhase(View())
      modifies this
      ensures r.Ok? <==> Allowed(old(View()), Take)
      ensures View() == Apply(old(View()), Take)
      ensures r.Ok? ==> phase.Running? && r.value == Ordered(old(View()).pending)
      ensures r.Err? ==> phase == old(phase)
    {
      var prev := phase;
      phase := Running;
      if prev.Paused? {
        var complete := prev.pending.IsComplete();
        if complete {
          var texts := prev.pending.IntoOrderedResponses();
          return Ok(texts);
        }
      }
      phase := prev;
      r := Err("expected Paused(complete), got " + NameOf(prev));
    }

    method CompleteWith(result: Json) returns (ok: bool)
      modifies this
      ensures ok <==> Allowed(old(View()), Complete(result))
      ensures View() == Apply(old(View()), Complete(result)) && (!ok ==> phase == old(phase))
      ensures ok ==> Repr() == {this}
    {
      ok := phase.Running?;
      if ok {
        phase := Completed(result);
      }
    }

    method FailWith(error: string) returns (ok: bool)
      modifies this
      ensures ok <==> Allowed(old(View()), Fail(error))
      ensures View() == Apply(old(View()), Fail(error)) && (!ok ==> phase == old(phase))
      ensures ok ==> Repr() == {this}
    {
      ok := phase.Running?;
      if ok {
        phase := Failed(error);
      }
    }

    method PauseOn(queries: seq<Query>) returns (ok: bool)
      modifies this
      ensures ok <==> Allowed(old(View()), Pause(queries))
      ensures View() == Apply(old(View()), Pause(queries)) && (!ok ==> phase == old(phase))
      ensures ok ==> phase.Paused? && fresh(phase.pending) && View().pending.Valid()
    {
      ok := phase.Running?;
      if ok {
        var pending := new PendingQueries(queries);
        phase := Paused(pending);
      }
    }

    method CancelIt() returns (ok: bool)
      modifies this
      ensures ok <==> Allowed(old(View()), Cancel)
      ensures View() == Apply(old(View()), Cancel) && (!ok ==> phase == old(phase))
    {
      ok := phase.Running? || phase.Paused?;
      if ok {
        phase := Cancelled;
      }
    }
  }

  datatype Step = Feeding(id: string, text: string) | Doing(op: Op)

  ghost function StepPhase(ph: Phase, s: Step): Phase {
    match s
    case Feeding(id, text) => AfterFeedPhase(ph, id, text)
    case Doing(op) => Apply(ph, op)
  }

  ghost function RunPhase(ph: Phase, steps: seq<Step>): Phase {
    if steps == [] then ph else StepPhase(RunPhase(ph, steps[..|steps| - 1]), steps[|steps| - 1])
  }

  /** A terminal phase is final, whatever is called on it. */
  lemma {:induction false} TerminalIsFinal(ph: Phase, steps: seq<Step>)
    requires IsTerminal(ph)
    ensures RunPhase(ph, steps) == ph
  {
    if steps != [] {
      TerminalIsFinal(ph, steps[..|steps| - 1]);
    }
  }

  lemma AfterFeedValid(p: Pending, id: string, text: string)
    requires p.Valid()
    ensures AfterFeed(p, id, text).Valid()
  {
  }

  /** Every phase a run can reach has distinct pending ids and replies only to them. */
  lemma {:induction false} RunStaysValid(ph: Phase, steps: seq<Step>)
    requires ValidPhase(ph)
    ensures ValidPhase(RunPhase(ph, steps))
  {
    if steps != [] {
      hide AfterFeed;
      var before := RunPhase(ph, steps[..|steps| - 1]);
      RunStaysValid(ph, steps[..|steps| - 1]);
      match steps[|steps| - 1] {
        case Feeding(id, text) =>
          if before.Paused? {
            AfterFeedValid(before.pending, id, text);
          }
        case Doing(op) =>
          if op.Pause? {
            CollectKeepsIds(op.queries);
          }
      }
    }
  }
}

/** Session metrics: counters and the transcript, kept by an observer. */
module Metrics {
  import opened Execution
  import opened Json

  datatype Entry = Entry(queryId: string, prompt: string, system: Option<string>, response: Option<string>)

  datatype Status = Status(pauses: nat, llmCalls: nat, rounds: nat, transcript: seq<Entry>, ended: bool)

  const EMPTY_STATUS := Status(0, 0, 0, [], false)

  function NewEntries(qs: seq<Query>): (es: seq<Entry>)
    ensures |es| == |qs|
    ensures forall i | 0 <= i < |es| :: es[i] == Entry(qs[i].id, qs[i].prompt, qs[i].system, None)
  {
    seq(|qs|, i requires 0 <= i < |qs| => Entry(qs[i].id, qs[i].prompt, qs[i].system, None))
  }

  function OnPaused(s: Status, qs: seq<Query>): Status {
    s.(pauses := s.pauses + 1, llmCalls := s.llmCalls + |qs|, transcript := s.transcript + NewEntries(qs))
  }

  /** The newest entry for an id. */
  function LastIndex(es: seq<Entry>, id: string): (at: Option<nat>)
    ensures at.Some? ==> at.value < |es|
  {
    if es == [] then None
    else if es[|es| - 1].queryId == id then Some(|es| - 1)
    else LastIndex(es[..|es| - 1], id)
  }

  lemma {:induction false} LastIndexIs(es: seq<Entry>, id: string)
    ensures var at := LastIndex(es, id);
            && (at.Some? ==> es[at.value].queryId == id)
            && forall j | (if at.Some? then at.value + 1 else 0) <= j < |es| :: es[j].queryId != id
  {
    if es != [] {
      LastIndexIs(es[..|es| - 1], id);
    }
  }

  function Answered(es: seq<Entry>, id: string, text: string): (out: seq<Entry>)
    ensures |out| == |es|
    ensures forall j | 0 <= j < |es| ::
        out[j] == if LastIndex(es, id) == Some(j) then es[j].(response := Some(text)) else es[j]
  {
    var at := LastIndex(es, id);
    if at.Some? then es[at.value := es[at.value].(response := Some(text))] else es
  }

  function OnResponseFed(s: Status, id: string, text: string): Status {
    s.(transcript := Answered(s.transcript, id, text))
  }

  function OnResumed(s: Status): Status {
    s.(rounds := s.rounds + 1)
  }

  function OnEnded(s: Status): Status {
    s.(ended := true)
  }

  class SessionStatus {
    var pauses: nat
    var llmCalls: nat
    var rounds: nat
    var transcript: seq<Entry>
    var ended: bool

    function View(): Status
      reads this
    {
      Status(pauses, llmCalls, rounds, transcript, ended)
    }

    constructor ()
      ensures View() == EMPTY_STATUS
    {
      pauses, llmCalls, rounds, transcript, ended := 0, 0, 0, [], false;
    }
  }

  class MetricsObserver {
    const auto: SessionStatus

    constructor (auto: SessionStatus)
      ensures this.auto == auto
    {
      this.auto := auto;
    }

    method Paused(queries: seq<Query>)
      modifies auto
      ensures auto.View() == OnPaused(old(auto.View()), queries)
    {
      auto.pauses := auto.pauses + 1;
      auto.llmCalls := auto.llmCalls + |queries|;
      for i := 0 to |queries|
        invariant auto.View() == old(auto.View()).(pauses := auto.pauses, llmCalls := auto.llmCalls,
            transcript := old(auto.transcript) + NewEntries(queries[..i]))
        invariant auto.pauses == old(auto.pauses) + 1 && auto.llmCalls == old(auto.llmCalls) + |queries|
      {
        var q := queries[i];
        auto.transcript := auto.transcript + [Entry(q.id, q.prompt, q.system, None)];
        assert NewEntries(queries[..i + 1])
            == NewEntries(queries[..i]) + [Entry(q.id, q.prompt, q.system, None)];
      }
      assert queries[..|queries|] == queries;
    }

    /** Searches from the newest entry back; a text for an unknown id is dropped. */
    method ResponseFed(id: string, response: string)
      modifies auto
      ensures auto.View() == OnResponseFed(old(auto.View()), id, response)
    {
      ghost var es := auto.transcript;
      var i := |auto.transcript|;
      while i > 0
        invariant 0 <= i <= |es| && auto.View() == old(auto.View())
        invariant forall j | i <= j < |es| :: es[j].queryId != id
      {
        i := i - 1;
        if auto.transcript[i].queryId == id {
          auto.transcript := auto.transcript[i := auto.transcript[i].(response := Some(response))];
          LastIndexIs(es, id);
          assert auto.transcript == Answered(es, id, response);
          return;
        }
      }
      LastIndexIs(es, id);
    }

    method Resumed()
      modifies auto
      ensures auto.View() == OnResumed(old(auto.View()))
    {
      auto.rounds := auto.rounds + 1;
    }

    method Ended()
      modifies auto
      ensures auto.View() == OnEnded(old(auto.View()))
    {
      auto.ended := true;
    }
  }
}

/**
 A stream whose client is built on the SDK, as its writers use it: a writer waits for the lock, sends a
 batch and takes the first answer that is not foreign. That the answer is one for this batch, with one
 result for each of its messages, follows from what holds in every run of the stream.
 */
module ConsumeExchange {
  import opened Wrappers
  import opened MessageIds
  import opened ConsumeStream
  import opened ConsumeHandler

  /** What the client's handler returned for each message of a batch that it answered. */
  type Outcomes = seq<Option<ProcessError>>

  /** The client answers a batch as the SDK does, after its handler returned these outcomes. */
  ghost predicate SdkAction(s: ConsumeStream.State, a: Action, outcomes: Outcomes) {
    a.ClientAnswers? && a.k < |s.known| ==> SdkAnswer(s.known[a.k].messages, outcomes, a.results)
  }

  ghost predicate SdkRun(states: seq<ConsumeStream.State>, actions: seq<Action>, outcomes: seq<Outcomes>) {
    |states| == |actions| + 1 && |outcomes| == |actions|
    && forall k :: 0 <= k < |actions| ==> SdkAction(states[k], actions[k], outcomes[k])
  }

  /** Step k is the client's answer to a batch of these messages, whose handler returned these outcomes. */
  ghost predicate Processed(states: seq<ConsumeStream.State>, actions: seq<Action>, outcomes: seq<Outcomes>, k: nat, list: seq<Message>) {
    && k < |actions| && |states| == |actions| + 1 && |outcomes| == |actions|
    && actions[k].ClientAnswers? && actions[k].k < |states[k].known| && states[k].known[actions[k].k].messages == list
    && |outcomes[k]| == |list|
  }

  /** The answer was given by some step, for its own batch. */
  ghost predicate Given(states: seq<ConsumeStream.State>, actions: seq<Action>, outcomes: seq<Outcomes>, answer: Answer) {
    exists k: nat ::
      Processed(states, actions, outcomes, k, answer.about.messages) && SdkAnswer(answer.about.messages, outcomes[k], answer.results)
  }

  ghost predicate SdkOnly(states: seq<ConsumeStream.State>, actions: seq<Action>, outcomes: seq<Outcomes>, s: ConsumeStream.State) {
    && (forall i :: 0 <= i < |s.toServer| ==> Given(states, actions, outcomes, s.toServer[i]))
    && (forall i :: 0 <= i < |s.accepted| ==> Given(states, actions, outcomes, s.accepted[i].1))
  }

  lemma NewAnswer(states: seq<ConsumeStream.State>, actions: seq<Action>, outcomes: seq<Outcomes>, n: nat)
    requires SdkRun(states, actions, outcomes) && n < |actions| && actions[n].ClientAnswers?
    requires Enabled(states[n], actions[n]) && states[n + 1] == Step(states[n], actions[n])
    ensures states[n + 1].accepted == states[n].accepted && |states[n + 1].toServer| == |states[n].toServer| + 1
    ensures states[n + 1].toServer[..|states[n].toServer|] == states[n].toServer
    ensures Given(states, actions, outcomes, states[n + 1].toServer[|states[n].toServer|])
  {
    assert SdkAction(states[n], actions[n], outcomes[n]);
    var answer := states[n + 1].toServer[|states[n].toServer|];
    AnswerLength(answer.about.messages, outcomes[n], actions[n].results);
    assert Processed(states, actions, outcomes, n, answer.about.messages);
  }

  lemma SdkStep(states: seq<ConsumeStream.State>, actions: seq<Action>, outcomes: seq<Outcomes>, n: nat)
    requires SdkRun(states, actions, outcomes) && n < |actions|
    requires Enabled(states[n], actions[n]) && states[n + 1] == Step(states[n], actions[n])
    requires SdkOnly(states, actions, outcomes, states[n])
    ensures SdkOnly(states, actions, outcomes, states[n + 1])
  {
    var s, s' := states[n], states[n + 1];
    if actions[n].ClientAnswers? {
      NewAnswer(states, actions, outcomes, n);
      forall i | 0 <= i < |s.toServer| ensures Given(states, actions, outcomes, s'.toServer[i]) {
        assert s'.toServer[i] == s'.toServer[..|s.toServer|][i];
      }
    }
  }

  lemma AnswerLength(list: seq<Message>, outcomes: Outcomes, results: seq<Result>)
    requires SdkAnswer(list, outcomes, results)
    ensures |outcomes| == |results| == |list|
  {
  }

  lemma {:induction false} SdkRunOnly(states: seq<ConsumeStream.State>, actions: seq<Action>, outcomes: seq<Outcomes>, k: nat)
    requires Run(states, actions) && SdkRun(states, actions, outcomes) && k < |states|
    ensures SdkOnly(states, actions, outcomes, states[k])
  {
    if k > 0 {
      SdkRunOnly(states, actions, outcomes, k - 1);
      SdkStep(states, actions, outcomes, k - 1);
    }
  }

  /**
   An answer accepted for a batch was given by the client for this batch: one result for each message,
   which says what the client's handler returned when it was called with the message.
   */
  lemma AcceptedAnswerIsForBatch(states: seq<ConsumeStream.State>, actions: seq<Action>, outcomes: seq<Outcomes>, n: nat, i: nat)
    returns (k: nat)
    requires Run(states, actions) && SdkRun(states, actions, outcomes) && n < |states| && i < |states[n].accepted|
    ensures var list := states[n].accepted[i].0.messages;
      Processed(states, actions, outcomes, k, list) && SdkAnswer(list, outcomes[k], states[n].accepted[i].1.results)
  {
    AcceptedAnswersMatch(states, actions, n, i);
    SdkRunOnly(states, actions, outcomes, n);
    var answer := states[n].accepted[i].1;
    assert Given(states, actions, outcomes, answer);
    k :| Processed(states, actions, outcomes, k, answer.about.messages) && SdkAnswer(answer.about.messages, outcomes[k], answer.results);
  }

  /** A run of the stream with what the client's handler returned. */
  datatype History = History(states: seq<ConsumeStream.State>, actions: seq<Action>, outcomes: seq<Outcomes>)
  {
    /** The client's handler was called with the message and returned the outcome. */
    ghost predicate Called(m: Message, err: Option<ProcessError>) {
      exists k: nat, list: seq<Message>, i: nat ::
        Processed(states, actions, outcomes, k, list) && i < |list| && list[i] == m && outcomes[k][i] == err
    }

    ghost predicate Continues(past: History) {
      && past.states <= states && past.actions <= actions && past.outcomes <= outcomes
      && |states| == |actions| + 1 && |outcomes| == |actions|
    }
  }

  /** A call of the handler stays one when the run goes on. */
  lemma StillCalled(past: History, past': History, m: Message, err: Option<ProcessError>)
    requires past.Called(m, err) && past'.Continues(past)
    ensures past'.Called(m, err)
  {
    var k: nat, list: seq<Message>, i: nat :|
      Processed(past.states, past.actions, past.outcomes, k, list) && i < |list| && list[i] == m && past.outcomes[k][i] == err;
    assert past'.states[k] == past.states[k] && past'.actions[k] == past.actions[k] && past'.outcomes[k] == past.outcomes[k];
    assert Processed(past'.states, past'.actions, past'.outcomes, k, list);
  }

  lemma OtherSteps(s: ConsumeStream.State, a: Action, w: nat)
    requires Enabled(s, a) && !(a.Send? && a.w == w)
    requires s.holder == Some(w) ==> !a.Recv? && !a.SeesEof? && !a.SeesError?
    ensures |Step(s, a).writers| == |s.writers|
    ensures s.holder == Some(w) ==> Step(s, a).holder == Some(w) && Step(s, a).writers == s.writers
    ensures s.holder != Some(w) ==> Step(s, a).holder != Some(w)
  {
  }

  /** The bytes on their way, the lock, the client; the run so far is its history. */
  class Connection {
    var state: ConsumeStream.State
    ghost var states: seq<ConsumeStream.State>
    ghost var actions: seq<Action>
    ghost var outcomes: seq<Outcomes>

    ghost predicate Valid()
      reads this
    {
      && Run(states, actions) && SdkRun(states, actions, outcomes)
      && state == states[|actions|]
    }

    /** The client's handler was called with the message and returned the outcome. */
    ghost predicate HandlerReturned(m: Message, err: Option<ProcessError>)
      reads this
    {
      Past().Called(m, err)
    }

    ghost function Past(): History
      reads this
    {
      History(states, actions, outcomes)
    }

    /** The run so far goes on. */
    twostate predicate GoesOn()
      reads this
    {
      old(states) <= states && old(actions) <= actions && old(outcomes) <= outcomes
    }

    constructor (client: Client, writers: nat)
      ensures Valid() && |state.writers| == writers && state.holder == None
    {
      state := ConsumeStream.State(client, 0, seq(writers, _ => Idle), None, true, false, [], [], [], []);
      states, actions, outcomes := [state], [], [];
    }

    method Take(a: Action, ghost returned: Outcomes)
      requires Valid() && Enabled(state, a) && SdkAction(state, a, returned)
      modifies this
      ensures Valid() && GoesOn() && state == Step(old(state), a) && actions == old(actions) + [a]
    {
      states, actions, outcomes := states + [Step(state, a)], actions + [a], outcomes + [returned];
      state := Step(state, a);
    }

    /** Something happens that is not up to writer w: the client, the network, another writer or another stream. */
    method Other(w: nat)
      requires Valid()
      modifies this
      ensures Valid() && GoesOn() && |state.writers| == |old(state).writers|
      ensures old(state).holder == Some(w) ==> state.holder == Some(w) && state.writers == old(state).writers
      ensures old(state).holder != Some(w) ==> state.holder != Some(w)
    {
      var answers: bool := *;
      if answers {
        var k: int := *;
        if 0 <= k < |state.known| && state.up && !state.clientClosed && (state.client.Positional? ==> k == 0) {
          var returned: Outcomes := *;
          if |returned| == |state.known[k].messages| {
            var results, _ := AnswerBatch(state.known[k].messages, returned);
            Take(ClientAnswers(k, results), returned);
          }
        }
      } else {
        var a: Action := *;
        var own := state.holder == Some(w) && (a.Recv? || a.SeesEof? || a.SeesError?);
        if !a.ClientAnswers? && !(a.Send? && a.w == w) && !own && Enabled(state, a) {
          OtherSteps(state, a, w);
          Take(a, []);
        }
      }
    }

    /**
     What writer w gets for its batch, within the given patience; a wait without an answer ends with the
     stream. Without events nothing was sent, because another writer has the lock or the stream is down.
     An accepted answer says what the client's handler returned when it was called with these messages.
     */
    method Exchange(w: nat, list: seq<Message>, patience: nat)
      returns (outcome: Outcome, ghost events: seq<Received>, ghost returned: Outcomes)
      requires Valid() && w < |state.writers| && state.holder != Some(w)
      modifies this
      ensures Valid() && GoesOn() && |state.writers| == |old(state).writers| && state.holder != Some(w)
      ensures outcome.Accepted? ==> IsAnswer(list, returned, outcome.result.resultList)
      ensures events == [] ==> outcome == StreamError && (state.holder.Some? || !state.up)
      ensures events != [] ==> exists n: nat :: Waits(events, BatchId(n), outcome)
      ensures events != [] ==> exists k :: |old(actions)| <= k < |actions| && actions[k] == Send(w, list, true)
    {
      var sent := TakeLockAndSend(w, list, patience);
      if !sent {
        return StreamError, [], [];
      }
      ghost var n, k := state.writers[w].batch.n, |actions| - 1;
      outcome, events, returned := Await(w, list, patience);
      assert Waits(events, BatchId(n), outcome) && actions[k] == Send(w, list, true);
    }

    /** Waits for the lock, takes it and sends the batch. */
    method TakeLockAndSend(w: nat, list: seq<Message>, patience: nat) returns (sent: bool)
      requires Valid() && w < |state.writers| && state.holder != Some(w)
      modifies this
      ensures Valid() && GoesOn() && |state.writers| == |old(state).writers|
      ensures !sent ==> state.holder != Some(w) && (state.holder.Some? || !state.up)
      ensures sent ==> state.holder == Some(w) && state.writers[w].Waiting? && state.writers[w].batch.messages == list
      ensures sent ==> |old(actions)| < |actions| && actions[|actions| - 1] == Send(w, list, true)
    {
      for i := 0 to patience
        invariant Valid() && GoesOn() && |state.writers| == |old(state).writers| && state.holder != Some(w)
      {
        Other(w);
      }
      RunInv(states, actions, |actions|);
      sent := state.holder == None && state.up;
      if sent {
        Take(Send(w, list, true), []);
      }
    }

    /** The results are the SDK's for what the handler returned when it was called with each message. */
    ghost predicate IsAnswer(list: seq<Message>, returned: Outcomes, results: seq<Result>)
      reads this
    {
      SdkAnswer(list, returned, results) && |returned| == |list|
      && forall i :: 0 <= i < |list| ==> HandlerReturned(list[i], returned[i])
    }

    /** The wait of ConsumeStream.AwaitResult, on the events as they come; events are those it reads. */
    method Await(w: nat, list: seq<Message>, patience: nat)
      returns (outcome: Outcome, ghost events: seq<Received>, ghost returned: Outcomes)
      requires Valid() && w < |state.writers| && state.holder == Some(w)
      requires state.writers[w].Waiting? && state.writers[w].batch.messages == list
      modifies this
      ensures Valid() && GoesOn() && |state.writers| == |old(state).writers| && state.holder != Some(w)
      ensures Waits(events, BatchId(old(state).writers[w].batch.n), outcome)
      ensures outcome.Accepted? ==> IsAnswer(list, returned, outcome.result.resultList)
    {
      var batchId := BatchId(state.writers[w].batch.n);
      events, returned := [], [];
      for i := 0 to patience
        invariant Valid() && GoesOn() && state.holder == Some(w) && state.writers == old(state).writers
        invariant forall j :: 0 <= j < |events| ==> Foreign(events[j], batchId)
      {
        var event;
        event, returned := Poll(w, list);
        if event.Some? {
          events := events + [event.value];
          if event.value.Data? {
            if event.value.result.batchId != "" && event.value.result.batchId != batchId {
              continue;
            }
          }
          return Conclude(event.value), events, returned;
        }
      }
      Take(Breaks, []);
      Take(SeesError, []);
      return StreamError, events + [Broken], [];
    }

    /** What the writer sees next, if anything yet. */
    method Poll(w: nat, list: seq<Message>) returns (event: Option<Received>, ghost returned: Outcomes)
      requires Valid() && w < |state.writers| && state.holder == Some(w)
      requires state.writers[w].Waiting? && state.writers[w].batch.messages == list
      modifies this
      ensures Valid() && GoesOn() && |state.writers| == |old(state).writers|
      ensures event.None? || Foreign(event.value, BatchId(old(state).writers[w].batch.n)) ==>
                state.holder == Some(w) && state.writers == old(state).writers
      ensures event.Some? && !Foreign(event.value, BatchId(old(state).writers[w].batch.n)) ==> state.holder != Some(w)
      ensures event.Some? && event.value.Data? && !Foreign(event.value, BatchId(old(state).writers[w].batch.n)) ==>
                IsAnswer(list, returned, event.value.result.resultList)
    {
      event, returned := None, [];
      Other(w);
      if !state.up {
        Take(SeesError, []);
        event := Some(Broken);
      } else if state.toServer != [] {
        var taken, result;
        taken, result, returned := Receive(w, list);
        event := Some(Data(result));
      } else if state.clientClosed {
        Take(SeesEof, []);
        event := Some(Eof);
      }
    }

    /** Reads the next answer; a foreign one is discarded. */
    method Receive(w: nat, list: seq<Message>) returns (taken: bool, result: BatchResult, ghost returned: Outcomes)
      requires Valid() && w < |state.writers| && state.holder == Some(w)
      requires state.writers[w].Waiting? && state.writers[w].batch.messages == list
      requires state.up && state.toServer != []
      modifies this
      ensures Valid() && GoesOn() && |state.writers| == |old(state).writers|
      ensures taken == !Foreign(Data(result), BatchId(old(state).writers[w].batch.n))
      ensures taken ==> state.holder == None && IsAnswer(list, returned, result.resultList)
      ensures !taken ==> state.holder == Some(w) && state.writers == old(state).writers
    {
      var batch, answer := state.writers[w].batch, state.toServer[0];
      Take(Recv, []);
      result := BatchResult(answer.batchId, answer.results);
      taken := !(answer.batchId != "" && answer.batchId != BatchId(batch.n));
      returned := [];
      if taken {
        ghost var k := AcceptedAnswerIsForBatch(states, actions, outcomes, |actions|, |state.accepted| - 1);
        returned := outcomes[k];
        forall i | 0 <= i < |list| ensures HandlerReturned(list[i], returned[i]) {
          assert Processed(states, actions, outcomes, k, list);
        }
      }
    }
  }
}

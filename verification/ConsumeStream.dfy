/**
 One consume stream shared by several writers: the Kafka loop and the repeater both send a batch and
 wait for its result, one at a time, under the consumer's lock.

 The method models the wait itself. The state machine adds the client and the network: answers may be
 late or repeated, the transport may break at any time, and the client may close its side.
 */
module ConsumeStream {
  import opened Wrappers
  import opened MessageIds

  datatype Result = Result(id: string, ok: bool, retryLater: bool, retryAfterSec: int, message: string)

  /** A consume request of the client that answers a batch; batchId is empty for old clients. */
  datatype BatchResult = BatchResult(batchId: string, resultList: seq<Result>)

  datatype Received = Data(result: BatchResult) | Eof | Broken

  datatype Outcome = Accepted(result: BatchResult) | Closed | StreamError

  /** A result of another batch: it carries an id, and not this batch's. */
  predicate Foreign(r: Received, batchId: string) {
    r.Data? && r.result.batchId != "" && r.result.batchId != batchId
  }

  function Conclude(r: Received): Outcome {
    match r
    case Data(result) => Accepted(result)
    case Eof => Closed
    case Broken => StreamError
  }

  /** The events a wait reads: foreign results up to the last one, which decides. */
  predicate Waits(events: seq<Received>, batchId: string, outcome: Outcome) {
    && events != []
    && (forall i :: 0 <= i < |events| - 1 ==> Foreign(events[i], batchId))
    && !Foreign(events[|events| - 1], batchId) && outcome == Conclude(events[|events| - 1])
  }

  lemma WaitGoesOn(events: seq<Received>, batchId: string, m: nat, n: nat, outcome: Outcome)
    requires m <= |events| && n <= |events| && Waits(events[..n], batchId, outcome)
    ensures 0 < m < n ==> Foreign(events[..m][m - 1], batchId)
  {
    if 0 < m < n {
      assert events[..m][m - 1] == events[..n][m - 1];
    }
  }

  /** A wait in terms of what was received: results with another id first, then a result with this id or none, or the end. */
  lemma WaitMeans(events: seq<Received>, batchId: string, outcome: Outcome)
    requires Waits(events, batchId, outcome)
    ensures forall i :: 0 <= i < |events| - 1 ==>
              events[i].Data? && events[i].result.batchId != "" && events[i].result.batchId != batchId
    ensures var last := events[|events| - 1];
      && (outcome.Accepted? <==> last.Data?)
      && (outcome.Accepted? ==> outcome.result == last.result && (last.result.batchId == "" || last.result.batchId == batchId))
      && (outcome.Closed? <==> last.Eof?) && (outcome.StreamError? <==> last.Broken?)
  {
    forall i | 0 <= i < |events| - 1
      ensures events[i].Data? && events[i].result.batchId != "" && events[i].result.batchId != batchId
    {
      assert Foreign(events[i], batchId);
    }
  }

  /** What is to be received determines how far a wait reads and what it returns. */
  lemma WaitIsDetermined(events: seq<Received>, batchId: string, m: nat, n: nat, a: Outcome, b: Outcome)
    requires m <= |events| && n <= |events|
    requires Waits(events[..m], batchId, a) && Waits(events[..n], batchId, b)
    ensures m == n && a == b
  {
    WaitGoesOn(events, batchId, m, n, b);
    WaitGoesOn(events, batchId, n, m, a);
  }

  /**
   The wait for the result of one batch: foreign results are discarded, the first other event decides.
   The list of events to come ends in Broken because a wait without an answer ends with the stream.
   */
  method AwaitResult(batchId: string, events: seq<Received>) returns (outcome: Outcome, read: nat)
    requires events != [] && events[|events| - 1] == Broken
    ensures 0 < read <= |events| && Waits(events[..read], batchId, outcome)
    ensures forall i :: 0 <= i < read - 1 ==>
              events[i].Data? && events[i].result.batchId != "" && events[i].result.batchId != batchId
    ensures outcome.Accepted? <==> events[read - 1].Data?
    ensures outcome.Accepted? ==>
              && outcome.result == events[read - 1].result
              && (outcome.result.batchId == "" || outcome.result.batchId == batchId)
    ensures outcome.Closed? <==> events[read - 1].Eof?
  {
    read := 0;
    while true
      invariant read < |events|
      invariant forall i :: 0 <= i < read ==> Foreign(events[i], batchId)
      decreases |events| - read
    {
      var r := events[read];
      read := read + 1;
      match r {
        case Eof => return Closed, read;
        case Broken => return StreamError, read;
        case Data(result) =>
          if result.batchId != "" && result.batchId != batchId {
            continue;
          }
          return Accepted(result), read;
      }
    }
  }

  // ----- The stream as a state machine -----

  /** A batch as it was sent: its number in the process-wide sequence and its messages. */
  datatype Batch = Batch(n: nat, messages: seq<Message>)

  /** An answer, with the batch whose processing it really reports. */
  datatype Answer = Answer(batchId: string, about: Batch, results: seq<Result>)

  datatype Writer = Idle | Waiting(batch: Batch)

  /** A client either echoes the batch id, answering as often and as late as it likes, or answers each batch once. */
  datatype Client = Echoing | Positional

  datatype State = State(
    client: Client,
    counter: nat,
    writers: seq<Writer>,
    holder: Option<nat>,
    up: bool,
    clientClosed: bool,
    toClient: seq<Batch>,
    known: seq<Batch>,
    toServer: seq<Answer>,
    accepted: seq<(Batch, Answer)>)

  ghost predicate Init(s: State) {
    && (forall w :: 0 <= w < |s.writers| ==> s.writers[w].Idle?)
    && s.holder == None && s.up && !s.clientClosed
    && s.toClient == [] && s.known == [] && s.toServer == [] && s.accepted == []
  }

  datatype Action =
    /** Another stream takes a batch number. */
    | Elsewhere
    /** A writer takes the lock and a number and sends; a failed send releases the lock. */
    | Send(w: nat, messages: seq<Message>, ok: bool)
    | ClientTakes
    /** An echoing client answers any batch it has received; a positional one the oldest unanswered. */
    | ClientAnswers(k: nat, results: seq<Result>)
    | Recv
    | ClientCloses
    | Breaks
    | SeesEof
    | SeesError

  predicate Enabled(s: State, a: Action) {
    match a
    case Elsewhere => true
    case Send(w, messages, ok) => w < |s.writers| && s.holder == None && s.writers[w].Idle? && (ok ==> s.up) && (!ok ==> !s.up)
    case ClientTakes => s.up && !s.clientClosed && s.toClient != []
    case ClientAnswers(k, _) => s.up && !s.clientClosed && k < |s.known| && (s.client.Positional? ==> k == 0)
    case Recv => s.up && s.holder.Some? && s.holder.value < |s.writers| && s.writers[s.holder.value].Waiting? && s.toServer != []
    case ClientCloses => true
    case Breaks => true
    case SeesEof => s.up && s.clientClosed && s.toServer == [] && s.holder.Some? && s.holder.value < |s.writers|
    case SeesError => !s.up && s.holder.Some? && s.holder.value < |s.writers|
  }

  function Release(s: State): State
    requires s.holder.Some? && s.holder.value < |s.writers|
  {
    s.(holder := None, writers := s.writers[s.holder.value := Idle])
  }

  function Step(s: State, a: Action): State
    requires Enabled(s, a)
  {
    match a
    case Elsewhere => s.(counter := s.counter + 1)
    case Send(w, messages, ok) =>
      var b := Batch(s.counter + 1, messages);
      if ok then s.(counter := b.n, holder := Some(w), writers := s.writers[w := Waiting(b)], toClient := s.toClient + [b])
      else s.(counter := b.n)
    case ClientTakes => s.(toClient := s.toClient[1..], known := s.known + [s.toClient[0]])
    case ClientAnswers(k, results) =>
      var b := s.known[k];
      if s.client.Echoing? then s.(toServer := s.toServer + [Answer(BatchId(b.n), b, results)])
      else s.(toServer := s.toServer + [Answer("", b, results)], known := s.known[1..])
    case Recv =>
      var b, answer := s.writers[s.holder.value].batch, s.toServer[0];
      var t := s.(toServer := s.toServer[1..]);
      if answer.batchId != "" && answer.batchId != BatchId(b.n) then t
      else Release(t).(accepted := s.accepted + [(b, answer)])
    case ClientCloses => s.(clientClosed := true)
    case Breaks => s.(up := false)
    case SeesEof => Release(s)
    case SeesError => Release(s)
  }

  ghost predicate Run(states: seq<State>, actions: seq<Action>) {
    && |states| == |actions| + 1
    && Init(states[0])
    && forall k :: 0 <= k < |actions| ==> Enabled(states[k], actions[k]) && states[k + 1] == Step(states[k], actions[k])
  }

  // ----- Invariant -----

  /** The lock is held exactly by the one writer that waits. */
  ghost predicate LockOk(s: State) {
    forall w :: 0 <= w < |s.writers| ==> (s.writers[w].Waiting? <==> s.holder == Some(w))
  }

  ghost predicate HolderOk(s: State) {
    s.holder.Some? ==> s.holder.value < |s.writers|
  }

  function Outstanding(s: State): seq<Batch> {
    if s.holder.Some? && s.holder.value < |s.writers| && s.writers[s.holder.value].Waiting?
    then [s.writers[s.holder.value].batch] else []
  }

  /** Every batch the client can know of, together with the outstanding one. */
  ghost predicate SentBatch(s: State, b: Batch) {
    b in s.toClient || b in s.known || b in Outstanding(s) || exists i :: 0 <= i < |s.toServer| && s.toServer[i].about == b
  }

  /** Numbers identify batches, and an echoed id is the id of the batch the answer is about. */
  ghost predicate EchoOk(s: State) {
    && (forall b :: SentBatch(s, b) ==> b.n <= s.counter)
    && (forall b, c :: SentBatch(s, b) && SentBatch(s, c) && b.n == c.n ==> b == c)
    && (forall i :: 0 <= i < |s.toServer| ==> s.toServer[i].batchId == BatchId(s.toServer[i].about.n))
  }

  function Abouts(answers: seq<Answer>): seq<Batch> {
    seq(|answers|, i requires 0 <= i < |answers| => answers[i].about)
  }

  /** While the client can still answer, the only batch in flight is the outstanding one. */
  ghost predicate PositionalOk(s: State) {
    && (s.up && !s.clientClosed ==> Abouts(s.toServer) + s.known + s.toClient == Outstanding(s))
    && (forall i :: 0 <= i < |s.toServer| ==> s.toServer[i].batchId == "")
    && (s.up ==> s.toServer == [] || Abouts(s.toServer) == Outstanding(s))
  }

  ghost predicate Aligned(s: State) {
    forall i :: 0 <= i < |s.accepted| ==> s.accepted[i].1.about == s.accepted[i].0
  }

  ghost predicate Inv(s: State) {
    && LockOk(s) && HolderOk(s) && Aligned(s)
    && (s.client.Echoing? ==> EchoOk(s))
    && (s.client.Positional? ==> PositionalOk(s))
  }

  lemma InitInv(s: State)
    requires Init(s)
    ensures Inv(s)
  {
  }

  lemma EchoRecv(s: State)
    requires Inv(s) && s.client.Echoing? && Enabled(s, Recv)
    ensures EchoOk(Step(s, Recv)) && Aligned(Step(s, Recv))
  {
    var s' := Step(s, Recv);
    var b, answer := s.writers[s.holder.value].batch, s.toServer[0];
    assert SentBatch(s, b) && SentBatch(s, answer.about);
    BatchIdsAreInjective(answer.about.n, b.n);
    forall c | SentBatch(s', c) ensures SentBatch(s, c) {
      if i :| 0 <= i < |s'.toServer| && s'.toServer[i].about == c {
        assert s.toServer[i + 1].about == c;
      }
    }
  }

  lemma EchoAnswers(s: State, k: nat, results: seq<Result>)
    requires Inv(s) && s.client.Echoing? && Enabled(s, ClientAnswers(k, results))
    ensures EchoOk(Step(s, ClientAnswers(k, results)))
  {
    var s' := Step(s, ClientAnswers(k, results));
    forall c | SentBatch(s', c) ensures SentBatch(s, c) {
      if i :| 0 <= i < |s'.toServer| && s'.toServer[i].about == c {
        if i < |s.toServer| {
          assert s.toServer[i].about == c;
        }
      }
    }
  }

  lemma EchoSend(s: State, w: nat, messages: seq<Message>, ok: bool)
    requires Inv(s) && s.client.Echoing? && Enabled(s, Send(w, messages, ok))
    ensures EchoOk(Step(s, Send(w, messages, ok)))
  {
    var s' := Step(s, Send(w, messages, ok));
    forall c | SentBatch(s', c) ensures SentBatch(s, c) || (ok && c == Batch(s.counter + 1, messages)) {
      if i :| 0 <= i < |s'.toServer| && s'.toServer[i].about == c {
        assert s.toServer[i].about == c;
      }
    }
  }

  lemma EchoStep(s: State, a: Action)
    requires Inv(s) && s.client.Echoing? && Enabled(s, a)
    ensures EchoOk(Step(s, a)) && Aligned(Step(s, a))
  {
    var s' := Step(s, a);
    match a
    case Recv => EchoRecv(s);
    case ClientAnswers(k, results) => EchoAnswers(s, k, results);
    case Send(w, messages, ok) => EchoSend(s, w, messages, ok);
    case SeesEof =>
      forall c | SentBatch(s', c) ensures SentBatch(s, c) {}
    case _ =>
      forall c | SentBatch(s', c) ensures SentBatch(s, c) {
        if i :| 0 <= i < |s'.toServer| && s'.toServer[i].about == c {
          assert s.toServer[i].about == c;
        }
      }
  }

  lemma PositionalRecv(s: State)
    requires Inv(s) && s.client.Positional? && Enabled(s, Recv)
    ensures PositionalOk(Step(s, Recv)) && Aligned(Step(s, Recv))
  {
    assert Abouts(s.toServer)[0] == s.toServer[0].about;
    assert |Abouts(s.toServer)| == |s.toServer| == 1;
    assert s.up && !s.clientClosed ==> |s.known| == |s.toClient| == 0;
    assert Outstanding(Step(s, Recv)) == [];
  }

  lemma PositionalMoves(s: State, a: Action)
    requires Inv(s) && s.client.Positional? && Enabled(s, a) && (a.ClientTakes? || a.ClientAnswers?)
    ensures PositionalOk(Step(s, a))
  {
    var s' := Step(s, a);
    assert Abouts(s.toServer) + s.known + s.toClient == Abouts(s'.toServer) + s'.known + s'.toClient;
    assert Outstanding(s') == Outstanding(s);
    if a.ClientAnswers? {
      assert |s.toServer| == |Abouts(s.toServer)|;
      assert Abouts(s'.toServer) == Abouts(s.toServer) + [s.known[0]];
    }
  }

  lemma PositionalStep(s: State, a: Action)
    requires Inv(s) && s.client.Positional? && Enabled(s, a)
    ensures PositionalOk(Step(s, a)) && Aligned(Step(s, a))
  {
    match a
    case Recv => PositionalRecv(s);
    case ClientTakes => PositionalMoves(s, a);
    case ClientAnswers(_, _) => PositionalMoves(s, a);
    case _ =>
      assert |Abouts(s.toServer)| == |s.toServer|;
  }

  lemma LockStep(s: State, a: Action)
    requires LockOk(s) && HolderOk(s) && Enabled(s, a)
    ensures LockOk(Step(s, a)) && HolderOk(Step(s, a))
  {
  }

  lemma StepInv(s: State, a: Action)
    requires Inv(s) && Enabled(s, a)
    ensures Inv(Step(s, a))
  {
    LockStep(s, a);
    if s.client.Echoing? {
      EchoStep(s, a);
    } else {
      PositionalStep(s, a);
    }
  }

  lemma {:induction false} RunInv(states: seq<State>, actions: seq<Action>, k: nat)
    requires Run(states, actions) && k < |states|
    ensures Inv(states[k])
  {
    if k == 0 {
      InitInv(states[0]);
    } else {
      RunInv(states, actions, k - 1);
      StepInv(states[k - 1], actions[k - 1]);
    }
  }

  /** At most one batch is outstanding on a stream, however many writers share it. */
  lemma OneOutstanding(states: seq<State>, actions: seq<Action>, k: nat, v: nat, w: nat)
    requires Run(states, actions) && k < |states|
    requires var s := states[k]; v < |s.writers| && w < |s.writers| && s.writers[v].Waiting? && s.writers[w].Waiting?
    ensures v == w
  {
    RunInv(states, actions, k);
  }

  /**
   A result accepted for a batch always reports that batch: for a client that echoes batch ids,
   whatever late or repeated answers it sends, and for an old client that answers each batch once.
   */
  lemma AcceptedAnswersMatch(states: seq<State>, actions: seq<Action>, k: nat, i: nat)
    requires Run(states, actions) && k < |states| && i < |states[k].accepted|
    ensures states[k].accepted[i].1.about == states[k].accepted[i].0
  {
    RunInv(states, actions, k);
  }

  /** The next answer is taken as the result of the waiting writer's batch if and only if it reports that batch. */
  lemma RecvAcceptsIffOwn(states: seq<State>, actions: seq<Action>, k: nat)
    requires Run(states, actions) && k < |states| && Enabled(states[k], Recv)
    ensures var s := states[k];
            var batch := s.writers[s.holder.value].batch;
            Step(s, Recv).accepted == s.accepted + [(batch, s.toServer[0])] <==> s.toServer[0].about == batch
  {
    RunInv(states, actions, k);
    StepInv(states[k], Recv);
    var s := states[k];
    var batch, answer := s.writers[s.holder.value].batch, s.toServer[0];
    var taken := s.accepted + [(batch, answer)];
    if Step(s, Recv).accepted == taken {
      assert taken[|s.accepted|] == (batch, answer);
    } else {
      assert answer.batchId != "" && answer.batchId != BatchId(batch.n);
    }
  }
}

/**
 The Kafka side of a consumer: fetch a batch, hand it to the handler, commit, and reconnect after
 every read or commit error. The broker keeps the committed offset of each partition; a new reader
 resumes there, while an existing one goes on from its own position whatever was committed.

 Everything outside is nondeterministic: which partition the next message comes from, every error,
 whether a failed commit took effect, and what the client answers. Runs are bounded by a number of
 rounds, so what is proved holds after every finite run.
 */
module KafkaConsumer {
  import opened Wrappers
  import opened MessageIds
  import opened ConsumeStream
  import opened ConsumeHandler
  import opened ConsumeExchange

  datatype Record = Record(key: seq<int>, value: seq<int>, headers: map<string, string>)

  datatype KafkaMessage = KafkaMessage(position: Position, record: Record)

  datatype ConsumeError = ReadFailed | HandlerFailed(error: HandlerError) | CommitFailed | DeadlineExceeded | ConnectFailed

  /** How a read loop ended: with an error, or because the consumer was stopped. */
  datatype Ending = Stopped | Ended(error: ConsumeError)

  type Offsets = map<int, int>

  function At(offsets: Offsets, partition: int): int {
    if partition in offsets then offsets[partition] else 0
  }

  function ToMessage(namespace: string, m: KafkaMessage): Message {
    Message(MessageId(namespace, m.position), m.record.key, m.record.value, m.record.headers)
  }

  method PrintId(namespace: string, p: Position) returns (id: string)
    ensures id == MessageId(namespace, p)
  {
    id := Decimal(p.partition) + "/" + Decimal(p.offset);
    if namespace != "" {
      id := namespace + "/" + id;
    }
  }

  method ToMessageList(mList: seq<KafkaMessage>, namespace: string) returns (list: seq<Message>)
    ensures |list| == |mList| && forall i :: 0 <= i < |list| ==> list[i] == ToMessage(namespace, mList[i])
    ensures forall i :: 0 <= i < |list| ==>
              && list[i].id == MessageId(namespace, mList[i].position)
              && list[i].key == mList[i].record.key && list[i].value == mList[i].record.value
              && list[i].headers == mList[i].record.headers
  {
    list := [];
    for i := 0 to |mList|
      invariant |list| == i && forall j :: 0 <= j < i ==> list[j] == ToMessage(namespace, mList[j])
    {
      var id := PrintId(namespace, mList[i].position);
      var r := mList[i].record;
      list := list + [Message(id, r.key, r.value, r.headers)];
    }
  }

  /** The messages of the topic, past and future; an offset may hold none. */
  type Log = Position -> Option<Record>

  // ----- What a fetched batch is -----

  /** The reader stands where the broker would resume. */
  ghost predicate InStep(committed: Offsets, position: Offsets) {
    forall p :: At(position, p) == At(committed, p)
  }

  /** The batch is in offset order per partition. */
  ghost predicate Ordered(mList: seq<KafkaMessage>) {
    forall i, j :: 0 <= i < j < |mList| && mList[i].position.partition == mList[j].position.partition ==>
      mList[i].position.offset < mList[j].position.offset
  }

  ghost predicate Between(committed: Offsets, position: Offsets, p: Position) {
    At(committed, p.partition) <= p.offset < At(position, p.partition)
  }

  ghost predicate InBatch(mList: seq<KafkaMessage>, p: Position) {
    exists i :: 0 <= i < |mList| && mList[i].position == p
  }

  ghost predicate FromLog(log: Log, committed: Offsets, position: Offsets, mList: seq<KafkaMessage>) {
    forall i :: 0 <= i < |mList| ==>
      log(mList[i].position) == Some(mList[i].record) && Between(committed, position, mList[i].position)
  }

  ghost predicate Complete(log: Log, committed: Offsets, position: Offsets, mList: seq<KafkaMessage>) {
    forall p: Position :: Between(committed, position, p) && log(p).Some? ==> InBatch(mList, p)
  }

  ghost predicate Advances(committed: Offsets, committed': Offsets) {
    forall p :: At(committed, p) <= At(committed', p)
  }

  ghost predicate EndsAt(committed: Offsets, position: Offsets, mList: seq<KafkaMessage>) {
    forall p :: At(committed, p) < At(position, p) ==> InBatch(mList, Position(p, At(position, p) - 1))
  }

  /** The batch consists of every message between the committed offsets and the reader, and the reader stands after its last one. */
  ghost predicate Fetched(log: Log, committed: Offsets, position: Offsets, mList: seq<KafkaMessage>) {
    && Ordered(mList)
    && Advances(committed, position)
    && FromLog(log, committed, position, mList)
    && Complete(log, committed, position, mList)
    && EndsAt(committed, position, mList)
  }

  lemma ExtendBatch(mList: seq<KafkaMessage>, m: KafkaMessage)
    ensures forall p :: InBatch(mList + [m], p) <==> InBatch(mList, p) || p == m.position
  {
    var all := mList + [m];
    forall p ensures InBatch(all, p) <==> InBatch(mList, p) || p == m.position {
      if i :| 0 <= i < |mList| && mList[i].position == p {
        assert all[i].position == p;
      }
      assert all[|mList|].position == m.position;
    }
  }

  ghost predicate SkipsNothing(log: Log, position: Offsets, p: Position) {
    && At(position, p.partition) <= p.offset
    && forall o :: At(position, p.partition) <= o < p.offset ==> log(Position(p.partition, o)).None?
  }

  lemma ExtendComplete(log: Log, committed: Offsets, before: Offsets, after: Offsets, mList: seq<KafkaMessage>, m: KafkaMessage)
    requires Complete(log, committed, before, mList) && SkipsNothing(log, before, m.position)
    requires after == before[m.position.partition := m.position.offset + 1]
    ensures Complete(log, committed, after, mList + [m])
  {
    ExtendBatch(mList, m);
    forall p: Position | Between(committed, after, p) && log(p).Some?
      ensures InBatch(mList + [m], p)
    {
      assert p == Position(p.partition, p.offset);
    }
  }

  lemma ExtendOrdered(log: Log, committed: Offsets, before: Offsets, mList: seq<KafkaMessage>, m: KafkaMessage)
    requires Ordered(mList) && FromLog(log, committed, before, mList) && SkipsNothing(log, before, m.position)
    ensures Ordered(mList + [m])
  {
    forall i | 0 <= i < |mList| && mList[i].position.partition == m.position.partition
      ensures mList[i].position.offset < m.position.offset
    {
      assert Between(committed, before, mList[i].position);
    }
  }

  lemma ExtendFetched(log: Log, committed: Offsets, before: Offsets, after: Offsets, mList: seq<KafkaMessage>, m: KafkaMessage)
    requires Fetched(log, committed, before, mList)
    requires log(m.position) == Some(m.record) && SkipsNothing(log, before, m.position)
    requires after == before[m.position.partition := m.position.offset + 1]
    ensures Fetched(log, committed, after, mList + [m])
  {
    ExtendComplete(log, committed, before, after, mList, m);
    ExtendOrdered(log, committed, before, mList, m);
    assert Advances(before, after);
    assert FromLog(log, committed, after, mList + [m]) by {
      forall p: Position | Between(committed, before, p) ensures Between(committed, after, p) {}
    }
    assert EndsAt(committed, after, mList + [m]) by {
      ExtendBatch(mList, m);
    }
  }

  // ----- What a commit may do -----

  /** A commit moves a partition's offset only to just after a message of the batch. */
  ghost predicate CommittedFrom(committed: Offsets, committed': Offsets, mList: seq<KafkaMessage>) {
    forall p :: At(committed', p) == At(committed, p) || InBatch(mList, Position(p, At(committed', p) - 1))
  }

  ghost predicate CommittedPast(committed: Offsets, m: KafkaMessage) {
    m.position.offset < At(committed, m.position.partition)
  }

  ghost predicate HandledAt(namespace: string, log: Log, okIds: set<string>, repeats: seq<Repeat>, p: Position) {
    log(p).Some? ==>
      var r := log(p).value;
      Handled(okIds, repeats, Message(id := MessageId(namespace, p), key := r.key, value := r.value, headers := r.headers))
  }

  /** Nothing below a committed offset is lost. */
  ghost predicate NoLoss(namespace: string, log: Log, committed: Offsets, okIds: set<string>, repeats: seq<Repeat>) {
    forall p: Position :: 0 <= p.offset < At(committed, p.partition) ==> HandledAt(namespace, log, okIds, repeats, p)
  }

  /** A commit of a batch whose messages are all handled loses nothing, even if only part of it takes effect. */
  lemma CommitKeepsNoLoss(namespace: string, log: Log, committed: Offsets, committed': Offsets, position: Offsets,
                          mList: seq<KafkaMessage>, okIds: set<string>, repeats: seq<Repeat>)
    requires Fetched(log, committed, position, mList) && CommittedFrom(committed, committed', mList)
    requires NoLoss(namespace, log, committed, okIds, repeats)
    requires forall i :: 0 <= i < |mList| ==> Handled(okIds, repeats, ToMessage(namespace, mList[i]))
    ensures NoLoss(namespace, log, committed', okIds, repeats) && Advances(committed, committed')
  {
    forall p ensures At(committed, p) <= At(committed', p) <= At(position, p) {
      if At(committed', p) != At(committed, p) {
        var i :| 0 <= i < |mList| && mList[i].position == Position(p, At(committed', p) - 1);
        assert Between(committed, position, mList[i].position);
      }
    }
    forall p: Position | 0 <= p.offset < At(committed', p.partition)
      ensures HandledAt(namespace, log, okIds, repeats, p)
    {
      if p.offset >= At(committed, p.partition) && log(p).Some? {
        assert Between(committed, position, p);
        var i :| 0 <= i < |mList| && mList[i].position == p;
        assert mList[i] == KafkaMessage(p, log(p).value);
      }
    }
  }

  /** More handled messages never make a loss. */
  lemma HandlingKeepsNoLoss(namespace: string, log: Log, committed: Offsets, okIds: set<string>, repeats: seq<Repeat>,
                            okIds': set<string>, repeats': seq<Repeat>)
    requires NoLoss(namespace, log, committed, okIds, repeats) && okIds <= okIds' && repeats <= repeats'
    ensures NoLoss(namespace, log, committed, okIds', repeats')
  {
    forall p: Position | 0 <= p.offset < At(committed, p.partition)
      ensures HandledAt(namespace, log, okIds', repeats', p)
    {
      assert HandledAt(namespace, log, okIds, repeats, p);
      if log(p).Some? {
        var m := ToMessage(namespace, KafkaMessage(p, log(p).value));
        StillHandled(okIds, repeats, okIds', repeats', m);
      }
    }
  }

  lemma StillHandled(okIds: set<string>, repeats: seq<Repeat>, okIds': set<string>, repeats': seq<Repeat>, m: Message)
    requires Handled(okIds, repeats, m) && okIds <= okIds' && repeats <= repeats'
    ensures Handled(okIds', repeats', m)
  {
    if i :| 0 <= i < |repeats| && StoresMessage(repeats[i], m) {
      assert repeats'[i] == repeats[i];
    }
  }

  /** A fully applied commit brings the broker to where the reader stands. */
  lemma FullCommitInStep(log: Log, committed: Offsets, committed': Offsets, position: Offsets, mList: seq<KafkaMessage>)
    requires Fetched(log, committed, position, mList) && CommittedFrom(committed, committed', mList)
    requires forall i :: 0 <= i < |mList| ==> CommittedPast(committed', mList[i])
    ensures InStep(committed', position)
  {
    forall p ensures At(position, p) == At(committed', p) {
      if At(committed, p) < At(position, p) {
        var i :| 0 <= i < |mList| && mList[i].position == Position(p, At(position, p) - 1);
        assert CommittedPast(committed', mList[i]);
      }
      if At(committed', p) != At(committed, p) {
        var i :| 0 <= i < |mList| && mList[i].position == Position(p, At(committed', p) - 1);
        assert Between(committed, position, mList[i].position);
      }
    }
  }

  lemma DistinctMessages(log: Log, committed: Offsets, position: Offsets, mList: seq<KafkaMessage>, list: seq<Message>, namespace: string)
    requires Fetched(log, committed, position, mList)
    requires |list| == |mList| && forall i :: 0 <= i < |list| ==> list[i] == ToMessage(namespace, mList[i])
    ensures DistinctIds(list)
  {
    var positions := seq(|mList|, i requires 0 <= i < |mList| => mList[i].position);
    assert forall i, j :: 0 <= i < j < |positions| ==> positions[i] != positions[j];
    DistinctPositionsDistinctIds(list, namespace, positions);
  }

  /** The messages of a batch are handled once the handler has applied the SDK's answer to it. */
  lemma AnsweredBatchIsHandled(list: seq<Message>, outcomes: Outcomes, results: seq<Result>, ok0: set<string>, repeats0: seq<Repeat>, i: nat)
    requires DistinctIds(list) && SdkAnswer(list, outcomes, results) && i < |list|
    ensures Handled(ok0 + OkIds(list, results), repeats0 + Repeats(list, results), list[i])
  {
    var stored := Repeats(list, results);
    AnswerLength(list, outcomes, results);
    SdkBatchIsHandled(list, outcomes, results, i);
    if outcomes[i].Some? {
      var k :| 0 <= k < |stored| && StoresFailure(stored[k], list[i], outcomes[i].value);
      assert (repeats0 + stored)[|repeats0| + k] == stored[k] && StoresMessage(stored[k], list[i]);
    }
  }

  /** The offset after the last message of a partition in the batch, if it has one. */
  function LastOffset(mList: seq<KafkaMessage>, partition: int): Option<int> {
    if mList == [] then None
    else
      var last := mList[|mList| - 1].position;
      if last.partition == partition then Some(last.offset + 1) else LastOffset(mList[..|mList| - 1], partition)
  }

  /** Message i is the last one of its partition in the batch. */
  ghost predicate IsLastOf(mList: seq<KafkaMessage>, i: nat) {
    i < |mList| && forall j :: i < j < |mList| ==> mList[j].position.partition != mList[i].position.partition
  }

  lemma {:induction false} LastOffsetIs(mList: seq<KafkaMessage>, i: nat)
    requires IsLastOf(mList, i)
    ensures LastOffset(mList, mList[i].position.partition) == Some(mList[i].position.offset + 1)
  {
    var n := |mList| - 1;
    if i < n {
      LastOffsetIs(mList[..n], i);
    }
  }

  ghost predicate Reported(before: Offsets, after: Offsets, mList: seq<KafkaMessage>) {
    forall p: int ::
      && (p in after <==> p in before || LastOffset(mList, p).Some?)
      && (p in after ==> after[p] == if LastOffset(mList, p).Some? then LastOffset(mList, p).value else before[p])
  }

  lemma ReportNext(before: Offsets, after: Offsets, mList: seq<KafkaMessage>, i: nat)
    requires i < |mList| && Reported(before, after, mList[..i])
    ensures Reported(before, after[mList[i].position.partition := mList[i].position.offset + 1], mList[..i + 1])
  {
    assert mList[..i + 1][..i] == mList[..i];
  }

  // ----- What the client's handler returned -----

  /** The message that the bus sends for the record at p. */
  ghost predicate IsMessageAt(m: Message, namespace: string, log: Log, p: Position) {
    && log(p).Some? && m.id == MessageId(namespace, p)
    && m.key == log(p).value.key && m.value == log(p).value.value && m.headers == log(p).value.headers
  }

  /** A message counts as done only if the client's handler was called with it and returned no error. */
  ghost predicate OkIsReal(past: History, namespace: string, log: Log, id: string) {
    exists p, m :: IsMessageAt(m, namespace, log, p) && m.id == id && past.Called(m, None)
  }

  /** A repeat is stored only for a message with which the handler was called and returned the stored error. */
  ghost predicate RepeatIsReal(past: History, namespace: string, log: Log, r: Repeat) {
    exists p, m, e :: IsMessageAt(m, namespace, log, p) && past.Called(m, Some(e)) && StoresFailure(r, m, e)
  }

  ghost predicate AllReal(past: History, namespace: string, log: Log, okIds: set<string>, repeats: seq<Repeat>) {
    && (forall id :: id in okIds ==> OkIsReal(past, namespace, log, id))
    && (forall k :: 0 <= k < |repeats| ==> RepeatIsReal(past, namespace, log, repeats[k]))
  }

  lemma RealStays(past: History, past': History, namespace: string, log: Log, okIds: set<string>, repeats: seq<Repeat>)
    requires AllReal(past, namespace, log, okIds, repeats) && past'.Continues(past)
    ensures AllReal(past', namespace, log, okIds, repeats)
  {
    forall id | id in okIds ensures OkIsReal(past', namespace, log, id) {
      assert OkIsReal(past, namespace, log, id);
      var p, m :| IsMessageAt(m, namespace, log, p) && m.id == id && past.Called(m, None);
      StillCalled(past, past', m, None);
    }
    forall k | 0 <= k < |repeats| ensures RepeatIsReal(past', namespace, log, repeats[k]) {
      assert RepeatIsReal(past, namespace, log, repeats[k]);
      var p, m, e :| IsMessageAt(m, namespace, log, p) && past.Called(m, Some(e)) && StoresFailure(repeats[k], m, e);
      StillCalled(past, past', m, Some(e));
    }
  }

  /** The list is the batch, and the client's handler was called with each of its messages. */
  ghost predicate CalledWith(past: History, namespace: string, log: Log, list: seq<Message>, outcomes: Outcomes) {
    && DistinctIds(list) && |outcomes| == |list|
    && forall i :: 0 <= i < |list| ==> CalledFor(past, namespace, log, list[i], outcomes[i])
  }

  ghost predicate CalledFor(past: History, namespace: string, log: Log, m: Message, err: Option<ProcessError>) {
    past.Called(m, err) && exists p :: IsMessageAt(m, namespace, log, p)
  }

  lemma NewOkIsReal(past: History, namespace: string, log: Log, list: seq<Message>, outcomes: Outcomes, results: seq<Result>, n: nat, id: string)
    requires CalledWith(past, namespace, log, list, outcomes) && SdkAnswer(list, outcomes, results) && n <= |results|
    requires IsOkFor(list, results[..n], id)
    ensures OkIsReal(past, namespace, log, id)
  {
    var j :| 0 <= j < n && results[..n][j].id == id && results[..n][j].ok;
    var i := ResultIsOf(list, outcomes, results, j);
    assert CalledFor(past, namespace, log, list[i], outcomes[i]);
    var p :| IsMessageAt(list[i], namespace, log, p);
  }

  lemma NewRepeatIsReal(past: History, namespace: string, log: Log, list: seq<Message>, outcomes: Outcomes, results: seq<Result>, n: nat, r: Repeat)
    requires CalledWith(past, namespace, log, list, outcomes) && SdkAnswer(list, outcomes, results) && n <= |results|
    requires IsAskedFor(list, results[..n], r)
    ensures RepeatIsReal(past, namespace, log, r)
  {
    var l, j := WhoAsks(list, results, n, r);
    var i := ResultIsOf(list, outcomes, results, j);
    assert list[i].id == list[l].id;
    assert CalledFor(past, namespace, log, list[i], outcomes[i]);
    FailedCallIsReal(past, namespace, log, list[i], outcomes[i], results[j], r);
  }

  lemma WhoAsks(list: seq<Message>, results: seq<Result>, n: nat, r: Repeat) returns (l: nat, j: nat)
    requires n <= |results| && IsAskedFor(list, results[..n], r)
    ensures l < |list| && j < n && AsksFor(list[l], results[j], r)
  {
    l, j :| 0 <= l < |list| && 0 <= j < n && AsksFor(list[l], results[..n][j], r);
  }

  lemma FailedCallIsReal(past: History, namespace: string, log: Log, m: Message, err: Option<ProcessError>, result: Result, r: Repeat)
    requires CalledFor(past, namespace, log, m, err) && AsksFor(m, result, r) && Reports(result, m.id, err)
    ensures RepeatIsReal(past, namespace, log, r)
  {
    FailureIsStored(r, m, result, err);
    assert past.Called(m, Some(err.value));
  }

  /** Handling the first n results of the client's answer adds only what its handler returned. */
  lemma BatchIsReal(past: History, namespace: string, log: Log, list: seq<Message>, outcomes: Outcomes, results: seq<Result>, n: nat,
                    ok0: set<string>, repeats0: seq<Repeat>, okIds: set<string>, repeats: seq<Repeat>)
    requires CalledWith(past, namespace, log, list, outcomes) && SdkAnswer(list, outcomes, results) && n <= |results|
    requires AllReal(past, namespace, log, ok0, repeats0) && HandledAs(ok0, repeats0, okIds, repeats, list, results[..n])
    ensures AllReal(past, namespace, log, okIds, repeats)
  {
    forall id | id in okIds ensures OkIsReal(past, namespace, log, id) {
      if id !in ok0 {
        NewOkIsReal(past, namespace, log, list, outcomes, results, n, id);
      }
    }
    forall k | 0 <= k < |repeats| ensures RepeatIsReal(past, namespace, log, repeats[k]) {
      if k < |repeats0| {
        assert repeats[k] == repeats0[k];
      } else {
        NewRepeatIsReal(past, namespace, log, list, outcomes, results, n, repeats[k]);
      }
    }
  }

  /** The batches are not empty, and the broker is past every message of them. */
  ghost predicate AllCommitted(committed: Offsets, batches: seq<seq<KafkaMessage>>) {
    forall k :: 0 <= k < |batches| ==> batches[k] != [] && forall i :: 0 <= i < |batches[k]| ==> CommittedPast(committed, batches[k][i])
  }

  lemma StillCommitted(committed: Offsets, committed': Offsets, batches: seq<seq<KafkaMessage>>)
    requires AllCommitted(committed, batches) && Advances(committed, committed')
    ensures AllCommitted(committed', batches)
  {
    forall k, i | 0 <= k < |batches| && 0 <= i < |batches[k]| ensures CommittedPast(committed', batches[k][i]) {
      assert CommittedPast(committed, batches[k][i]);
    }
  }

  lemma OneMoreCommitted(committed: Offsets, batches: seq<seq<KafkaMessage>>, mList: seq<KafkaMessage>)
    requires AllCommitted(committed, batches) && mList != []
    requires forall i :: 0 <= i < |mList| ==> CommittedPast(committed, mList[i])
    ensures AllCommitted(committed, batches + [mList])
  {
  }

  /** What the handler makes of the client's answer to a fetched batch; all says that every result took effect. */
  lemma AnswerIsHandled(past: History, namespace: string, log: Log, mList: seq<KafkaMessage>,
                        list: seq<Message>, outcomes: Outcomes, results: seq<Result>, n: nat,
                        ok0: set<string>, repeats0: seq<Repeat>, okIds: set<string>, repeats: seq<Repeat>, all: bool)
    requires CalledWith(past, namespace, log, list, outcomes) && SdkAnswer(list, outcomes, results) && n <= |results|
    requires |list| == |mList| && forall i :: 0 <= i < |list| ==> list[i] == ToMessage(namespace, mList[i])
    requires AllReal(past, namespace, log, ok0, repeats0) && HandledAs(ok0, repeats0, okIds, repeats, list, results[..n])
    requires all ==> okIds == ok0 + OkIds(list, results) && repeats == repeats0 + Repeats(list, results)
    ensures AllReal(past, namespace, log, okIds, repeats) && Accepts(list, results)
    ensures all ==> BatchHandled(namespace, mList, okIds, repeats)
  {
    BatchIsReal(past, namespace, log, list, outcomes, results, n, ok0, repeats0, okIds, repeats);
    SdkAnswerIsAccepted(list, outcomes, results);
    if all {
      forall i | 0 <= i < |mList| ensures Handled(okIds, repeats, ToMessage(namespace, mList[i])) {
        AnsweredBatchIsHandled(list, outcomes, results, ok0, repeats0, i);
      }
    }
  }

  class Consumer {
    const batchSize: int
    const namespace: string
    const log: Log
    const handler: Handler
    /** The client's stream; the repeater may write to it too. */
    const stream: Connection

    /** The committed offsets, kept by the broker. */
    var committed: Offsets
    /** The offsets the current reader reads next. */
    var position: Offsets
    /** What the consumer reports about itself. */
    var offsetMap: Offsets
    var messagesProcessed: nat
    var reconnectCount: nat

    constructor (batchSize: int, namespace: string, log: Log, stream: Connection, handler: Handler)
      requires handler.Valid() && handler.okIds == {} && handler.repeats == [] && stream.Valid() && |stream.state.writers| > 0 && stream.state.holder == None
      ensures this.batchSize == batchSize && this.namespace == namespace && this.log == log && this.stream == stream
      ensures this.handler == handler
      ensures committed == map[] && Valid() && InStep(committed, position)
    {
      this.batchSize, this.namespace, this.log, this.stream, this.handler := batchSize, namespace, log, stream, handler;
      committed, position, offsetMap := map[], map[], map[];
      messagesProcessed, reconnectCount := 0, 0;
    }

    /** The stream is free for the consumer, what was handled is what the client's handler returned, every message below a committed offset is handled, and no reported offset is beyond the committed one. */
    ghost predicate Valid()
      reads this, handler, handler.retries, stream
    {
      && handler.Valid() && stream.Valid() && |stream.state.writers| > 0 && stream.state.holder != Some(0)
      && AllReal(stream.Past(), namespace, log, handler.okIds, handler.repeats)
      && NoLoss(namespace, log, committed, handler.okIds, handler.repeats)
      && forall p :: p in offsetMap ==> offsetMap[p] <= At(committed, p)
    }

    /** The next message of some partition, or an error. */
    method FetchMessage(ghost mList: seq<KafkaMessage>) returns (m: Option<KafkaMessage>)
      requires Fetched(log, committed, position, mList)
      modifies this`position
      ensures m.Some? ==> Fetched(log, committed, position, mList + [m.value])
      ensures m.None? ==> position == old(position)
    {
      var partition: int := *;
      var offset: int := *;
      var next, p := At(position, partition), Position(partition, offset);
      if offset < next || log(p).None? {
        return None;
      }
      var skips := exists o :: next <= o < offset && log(Position(partition, o)).Some?;
      if skips {
        return None;
      }
      assert SkipsNothing(log, position, p);
      m := Some(KafkaMessage(p, log(p).value));
      ghost var before := position;
      position := position[partition := offset + 1];
      ExtendFetched(log, committed, before, position, mList, m.value);
    }

    /** Collects a batch; ok is false after a read error other than the end of the collecting window. */
    method FetchBatch() returns (mList: seq<KafkaMessage>, ok: bool)
      requires InStep(committed, position)
      modifies this`position
      ensures ok ==> mList != [] && Fetched(log, committed, position, mList)
      ensures |mList| <= if batchSize > 1 then batchSize else 1
    {
      mList := [];
      var m := FetchMessage(mList);
      if m.None? {
        return [], false;
      }
      mList, ok := mList + [m.value], true;
      while |mList| < batchSize
        invariant mList != [] && Fetched(log, committed, position, mList)
        invariant |mList| <= if batchSize > 1 then batchSize else 1
        decreases batchSize - |mList|
      {
        m := FetchMessage(mList);
        if m.None? {
          ok := *;
          break;
        }
        mList := mList + [m.value];
      }
    }

    /** Commits message by message; a failed commit may have taken effect for any part of the batch. */
    method CommitMessages(mList: seq<KafkaMessage>) returns (ok: bool)
      requires Ordered(mList)
      modifies this`committed
      ensures CommittedFrom(old(committed), committed, mList)
      ensures ok ==> forall i :: 0 <= i < |mList| ==> CommittedPast(committed, mList[i])
    {
      ok := *;
      for i := 0 to |mList|
        invariant CommittedFrom(old(committed), committed, mList)
        invariant ok ==> forall j :: 0 <= j < i ==> CommittedPast(committed, mList[j])
      {
        var took: bool := *;
        if ok || took {
          var p := mList[i].position;
          committed := committed[p.partition := p.offset + 1];
          assert InBatch(mList, p);
        }
      }
    }

    /** Sends the batch to the client and handles its answer. */
    method Process(mList: seq<KafkaMessage>) returns (err: Option<HandlerError>, ghost outcome: Outcome)
      requires Valid() && Fetched(log, committed, position, mList)
      modifies handler, handler.retries, stream
      ensures Valid()
      ensures outcome.StreamError? <==> err == Some(StreamFailed)
      ensures outcome.Closed? <==> err == Some(StreamClosed)
      ensures outcome.Accepted? <==> err == None || err == Some(EnqueueFailed)
      ensures err == None ==> BatchHandled(namespace, mList, handler.okIds, handler.repeats)
    {
      var list := ToMessageList(mList, namespace);
      DistinctMessages(log, committed, position, mList, list, namespace);
      var patience: nat := *;
      ghost var past := stream.Past();
      var answer, _, returned := stream.Exchange(0, list, patience);
      outcome := answer;
      RealStays(past, stream.Past(), namespace, log, handler.okIds, handler.repeats);
      ghost var ok0, repeats0 := handler.okIds, handler.repeats;
      ghost var applied;
      err, applied := handler.Handle(list, answer);
      HandlingKeepsNoLoss(namespace, log, committed, ok0, repeats0, handler.okIds, handler.repeats);
      if answer.Accepted? {
        BatchIsCalled(mList, list, returned);
        AnswerIsHandled(stream.Past(), namespace, log, mList, list, returned, answer.result.resultList, applied,
                        ok0, repeats0, handler.okIds, handler.repeats, err == None);
      }
    }

    lemma BatchIsCalled(mList: seq<KafkaMessage>, list: seq<Message>, returned: Outcomes)
      requires Fetched(log, committed, position, mList) && DistinctIds(list)
      requires |list| == |mList| && forall i :: 0 <= i < |list| ==> list[i] == ToMessage(namespace, mList[i])
      requires |returned| == |list| && forall i :: 0 <= i < |list| ==> stream.HandlerReturned(list[i], returned[i])
      ensures CalledWith(stream.Past(), namespace, log, list, returned)
    {
      forall i | 0 <= i < |list|
        ensures CalledFor(stream.Past(), namespace, log, list[i], returned[i])
      {
        assert IsMessageAt(list[i], namespace, log, mList[i].position);
      }
    }

    /**
     Hands the batch to the client and, if it was handled, commits it. A handler error says what came of
     the exchange with the client; without one only the commit can fail.
     */
    method ProcessAndCommit(mList: seq<KafkaMessage>) returns (err: Option<ConsumeError>, ghost outcome: Outcome)
      requires Valid() && Fetched(log, committed, position, mList)
      modifies this`committed, handler, handler.retries, stream
      ensures Valid() && Advances(old(committed), committed)
      ensures outcome.StreamError? <==> err == Some(HandlerFailed(StreamFailed))
      ensures outcome.Closed? <==> err == Some(HandlerFailed(StreamClosed))
      ensures outcome.Accepted? <==> err == None || err == Some(CommitFailed) || err == Some(HandlerFailed(EnqueueFailed))
      ensures err.None? ==> InStep(committed, position)
      ensures err.Some? && err.value.HandlerFailed? ==> committed == old(committed)
      ensures err == None || err == Some(CommitFailed) ==> BatchHandled(namespace, mList, handler.okIds, handler.repeats)
      ensures err.None? ==> forall i :: 0 <= i < |mList| ==> CommittedPast(committed, mList[i])
    {
      var handlerErr;
      handlerErr, outcome := Process(mList);
      if handlerErr.Some? {
        return Some(HandlerFailed(handlerErr.value)), outcome;
      }
      ghost var before := committed;
      var ok := CommitMessages(mList);
      CommitKeepsNoLoss(namespace, log, before, committed, position, mList, handler.okIds, handler.repeats);
      if !ok {
        return Some(CommitFailed), outcome;
      }
      FullCommitInStep(log, before, committed, position, mList);
      return None, outcome;
    }

    /** Reports the batch as processed: per partition of the batch, the offset after its last message. */
    method SetOffset(mList: seq<KafkaMessage>)
      requires Valid()
      requires forall i :: 0 <= i < |mList| ==> CommittedPast(committed, mList[i])
      modifies this`offsetMap, this`messagesProcessed
      ensures Valid() && messagesProcessed == old(messagesProcessed) + |mList|
      ensures Reported(old(offsetMap), offsetMap, mList)
      ensures forall i: nat :: IsLastOf(mList, i) ==>
                var p := mList[i].position; p.partition in offsetMap && offsetMap[p.partition] == p.offset + 1
    {
      for i := 0 to |mList|
        invariant Valid() && messagesProcessed == old(messagesProcessed)
        invariant Reported(old(offsetMap), offsetMap, mList[..i])
      {
        var p := mList[i].position;
        ReportNext(old(offsetMap), offsetMap, mList, i);
        offsetMap := offsetMap[p.partition := p.offset + 1];
      }
      assert mList[..|mList|] == mList;
      forall i: nat | IsLastOf(mList, i)
        ensures var p := mList[i].position; p.partition in offsetMap && offsetMap[p.partition] == p.offset + 1
      {
        LastOffsetIs(mList, i);
      }
      messagesProcessed := messagesProcessed + |mList|;
    }

    /** Reads, processes and commits one batch; afterwards the deadline may have expired. */
    method ConsumeBatch() returns (err: Option<ConsumeError>, mList: seq<KafkaMessage>)
      requires Valid() && InStep(committed, position)
      modifies this`position, this`committed, handler, handler.retries, stream
      ensures Valid() && Advances(old(committed), committed)
      ensures err == None ==> InStep(committed, position) && mList != []
      ensures err == None ==> forall i :: 0 <= i < |mList| ==> CommittedPast(committed, mList[i])
    {
      var fetched;
      mList, fetched := FetchBatch();
      if !fetched {
        return Some(ReadFailed), mList;
      }
      ghost var outcome;
      err, outcome := ProcessAndCommit(mList);
      if err.None? {
        var expired: bool := *;
        if expired {
          err := Some(DeadlineExceeded);
        }
      }
    }

    /** Reads and processes batches until an error, or until it is cancelled in the given round; batches are those of the rounds without an error. */
    method Consume(rounds: nat) returns (ending: Ending, ghost batches: seq<seq<KafkaMessage>>)
      requires Valid() && InStep(committed, position)
      modifies this, handler, handler.retries, stream
      ensures Valid() && Advances(old(committed), committed) && reconnectCount == old(reconnectCount)
      ensures AllCommitted(committed, batches)
      ensures ending.Stopped? ==> |batches| == rounds
    {
      batches := [];
      for round := 0 to rounds
        invariant Valid() && InStep(committed, position) && Advances(old(committed), committed)
        invariant reconnectCount == old(reconnectCount) && |batches| == round && AllCommitted(committed, batches)
      {
        ghost var before := committed;
        var err, mList := ConsumeBatch();
        StillCommitted(before, committed, batches);
        if err.Some? {
          return Ended(err.value), batches;
        }
        OneMoreCommitted(committed, batches, mList);
        batches := batches + [mList];
        if round == rounds - 1 {
          return Stopped, batches;
        }
        SetOffset(mList);
      }
      return Stopped, batches;
    }

    /** A new reader at the committed offsets, unless connecting fails. */
    method Reconnect() returns (ok: bool)
      requires Valid()
      modifies this
      ensures Valid() && committed == old(committed) && reconnectCount == old(reconnectCount) + 1
      ensures ok ==> InStep(committed, position)
    {
      reconnectCount := reconnectCount + 1;
      ok := *;
      if ok {
        position := committed;
      }
    }

    /**
     The consume loop: after any error except a handler error it reconnects before it reads again, until it
     is cancelled in a round of a reader or after a number of attempts. In every run nothing below a
     committed offset is lost, and committed offsets only advance.
     */
    method ConsumeLoop(attempts: nat, rounds: nat) returns (ending: Ending, ghost batches: seq<seq<KafkaMessage>>)
      requires Valid() && InStep(committed, position)
      modifies this, handler, handler.retries, stream
      ensures Valid() && Advances(old(committed), committed)
      ensures ending.Ended? ==> ending.error.HandlerFailed?
      ensures AllCommitted(committed, batches)
      ensures ending.Stopped? ==> |batches| == rounds || (attempts > 0 ==> reconnectCount == old(reconnectCount) + attempts - 1)
    {
      batches := [];
      for attempt := 1 to attempts + 1
        invariant Valid() && Advances(old(committed), committed)
        invariant attempt == 1 ==> InStep(committed, position)
        invariant reconnectCount == old(reconnectCount) + if attempt > 1 then attempt - 2 else 0
        invariant AllCommitted(committed, batches)
      {
        if attempt != 1 {
          var connected := Reconnect();
          if !connected {
            continue;
          }
        }
        ending, batches := Consume(rounds);
        if ending.Stopped? || ending.error.HandlerFailed? {
          return;
        }
      }
      return Stopped, batches;
    }
  }

  /** The broker after the whole batch of a reader that started at `start` was committed. */
  ghost predicate CommittedAll(committed: Offsets, committed': Offsets, start: Offsets, position: Offsets) {
    forall p :: At(committed', p) == if At(start, p) < At(position, p) then At(position, p) else At(committed, p)
  }

  /** A message between the committed offset and the start of a reader that read on in its partition. */
  ghost predicate Skipped(log: Log, committed: Offsets, start: Offsets, position: Offsets, p: Position) {
    && 0 <= p.offset && log(p).Some?
    && At(committed, p.partition) <= p.offset < At(start, p.partition) < At(position, p.partition)
  }

  ghost predicate BatchHandled(namespace: string, mList: seq<KafkaMessage>, okIds: set<string>, repeats: seq<Repeat>) {
    forall i :: 0 <= i < |mList| ==> Handled(okIds, repeats, ToMessage(namespace, mList[i]))
  }

  /** Committing the batch loses nothing, whatever has been handled as long as nothing was lost before. */
  ghost predicate CommitIsSafe(namespace: string, log: Log, committed: Offsets, committed': Offsets, mList: seq<KafkaMessage>) {
    forall okIds, repeats ::
      NoLoss(namespace, log, committed, okIds, repeats) && BatchHandled(namespace, mList, okIds, repeats)
      ==> NoLoss(namespace, log, committed', okIds, repeats)
  }

  lemma NothingSkippedIsSafe(namespace: string, log: Log, committed: Offsets, committed': Offsets, start: Offsets, position: Offsets,
                             mList: seq<KafkaMessage>, okIds: set<string>, repeats: seq<Repeat>)
    requires Fetched(log, start, position, mList) && CommittedAll(committed, committed', start, position)
    requires forall p :: !Skipped(log, committed, start, position, p)
    requires NoLoss(namespace, log, committed, okIds, repeats) && BatchHandled(namespace, mList, okIds, repeats)
    ensures NoLoss(namespace, log, committed', okIds, repeats)
  {
    forall p: Position | 0 <= p.offset < At(committed', p.partition)
      ensures HandledAt(namespace, log, okIds, repeats, p)
    {
      assert !Skipped(log, committed, start, position, p);
      if log(p).Some? && At(committed, p.partition) <= p.offset {
        assert Between(start, position, p);
        var i :| 0 <= i < |mList| && mList[i].position == p;
        assert mList[i] == KafkaMessage(p, log(p).value);
      }
    }
  }

  /** The ids of everything below the committed offsets and of the batch, and of nothing else. */
  function JustEnough(namespace: string, committed: Offsets, mList: seq<KafkaMessage>): set<string> {
    (set part, o | part in committed.Keys && 0 <= o < committed[part] :: MessageId(namespace, Position(part, o)))
    + (set i | 0 <= i < |mList| :: MessageId(namespace, mList[i].position))
  }

  lemma JustEnoughIsEnough(namespace: string, log: Log, committed: Offsets, mList: seq<KafkaMessage>)
    ensures NoLoss(namespace, log, committed, JustEnough(namespace, committed, mList), [])
    ensures BatchHandled(namespace, mList, JustEnough(namespace, committed, mList), [])
  {
    var ok := JustEnough(namespace, committed, mList);
    forall p: Position | 0 <= p.offset < At(committed, p.partition)
      ensures HandledAt(namespace, log, ok, [], p)
    {
      assert p == Position(p.partition, p.offset);
      assert MessageId(namespace, p) in ok;
    }
    forall i | 0 <= i < |mList| ensures Handled(ok, [], ToMessage(namespace, mList[i])) {
      assert MessageId(namespace, mList[i].position) in ok;
    }
  }

  lemma SkippedIsLost(namespace: string, log: Log, committed: Offsets, committed': Offsets, start: Offsets, position: Offsets,
                      mList: seq<KafkaMessage>, p: Position)
    requires Fetched(log, start, position, mList) && CommittedAll(committed, committed', start, position)
    requires Skipped(log, committed, start, position, p)
    ensures !NoLoss(namespace, log, committed', JustEnough(namespace, committed, mList), [])
  {
    forall q | MessageId(namespace, q) == MessageId(namespace, p) ensures q == p {
      IdsAreInjective(namespace, q, namespace, p);
    }
    forall i | 0 <= i < |mList| ensures mList[i].position != p {
      assert Between(start, position, mList[i].position);
    }
    assert !HandledAt(namespace, log, JustEnough(namespace, committed, mList), [], p);
  }

  /**
   When a reader may be kept: committing the batch it read from `start` is safe if and only if it passed
   no message since the committed offset in a partition where it read on. The offsets say so before the
   commit; for a new reader, which starts at the committed offset, there is no such message.
   */
  lemma KeptReaderIsSafeIff(namespace: string, log: Log, committed: Offsets, committed': Offsets, start: Offsets, position: Offsets,
                            mList: seq<KafkaMessage>)
    requires Fetched(log, start, position, mList) && CommittedAll(committed, committed', start, position)
    ensures CommitIsSafe(namespace, log, committed, committed', mList)
            <==> forall p :: !Skipped(log, committed, start, position, p)
  {
    if forall p :: !Skipped(log, committed, start, position, p) {
      forall okIds, repeats | NoLoss(namespace, log, committed, okIds, repeats) && BatchHandled(namespace, mList, okIds, repeats)
        ensures NoLoss(namespace, log, committed', okIds, repeats)
      {
        NothingSkippedIsSafe(namespace, log, committed, committed', start, position, mList, okIds, repeats);
      }
    } else {
      var p :| Skipped(log, committed, start, position, p);
      JustEnoughIsEnough(namespace, log, committed, mList);
      SkippedIsLost(namespace, log, committed, committed', start, position, mList, p);
    }
  }

  // ----- Runs of a reader that is never replaced -----

  /** The broker, the one reader, and what was handled so far. */
  datatype Kept = Kept(committed: Offsets, position: Offsets, okIds: set<string>, repeats: seq<Repeat>)

  const KEPT_START := Kept(map[], map[], {}, [])

  function ToMessages(namespace: string, mList: seq<KafkaMessage>): seq<Message> {
    seq(|mList|, i requires 0 <= i < |mList| => ToMessage(namespace, mList[i]))
  }

  /** One batch of the reader, which goes on from its position; without results it failed and nothing is committed. */
  datatype Round = Round(mList: seq<KafkaMessage>, results: Option<seq<Result>>, outcomes: Outcomes)

  ghost predicate KeptStep(namespace: string, log: Log, s: Kept, s': Kept, r: Round) {
    && Fetched(log, s.position, s'.position, r.mList)
    && if r.results.None? then s' == s.(position := s'.position)
       else
         var list := ToMessages(namespace, r.mList);
         && SdkAnswer(list, r.outcomes, r.results.value)
         && s'.okIds == s.okIds + OkIds(list, r.results.value) && s'.repeats == s.repeats + Repeats(list, r.results.value)
         && CommittedAll(s.committed, s'.committed, s.position, s'.position)
  }

  ghost predicate KeptRun(namespace: string, log: Log, states: seq<Kept>, rounds: seq<Round>) {
    && |states| == |rounds| + 1 && states[0] == KEPT_START
    && forall k :: 0 <= k < |rounds| ==> KeptStepAt(namespace, log, states, rounds, k)
  }

  ghost predicate KeptStepAt(namespace: string, log: Log, states: seq<Kept>, rounds: seq<Round>, k: int) {
    0 <= k < |rounds| && k + 1 < |states| && KeptStep(namespace, log, states[k], states[k + 1], rounds[k])
  }

  ghost predicate Safe(namespace: string, log: Log, s: Kept) {
    NoLoss(namespace, log, s.committed, s.okIds, s.repeats)
  }

  ghost predicate AlwaysSafe(namespace: string, log: Log) {
    forall states: seq<Kept>, rounds: seq<Round> :: KeptRun(namespace, log, states, rounds) ==> Safe(namespace, log, states[|rounds|])
  }

  /** No partition has two messages. */
  ghost predicate OneMessageEach(log: Log) {
    forall p: Position, q: Position ::
      p.partition == q.partition && 0 <= p.offset < q.offset && log(p).Some? ==> log(q).None?
  }

  lemma AnsweredRound(namespace: string, log: Log, committed: Offsets, start: Offsets, position: Offsets, mList: seq<KafkaMessage>,
                      outcomes: Outcomes, results: seq<Result>, okIds: set<string>, repeats: seq<Repeat>)
    requires Fetched(log, start, position, mList) && SdkAnswer(ToMessages(namespace, mList), outcomes, results)
    ensures BatchHandled(namespace, mList, okIds + OkIds(ToMessages(namespace, mList), results),
                         repeats + Repeats(ToMessages(namespace, mList), results))
  {
    var list := ToMessages(namespace, mList);
    DistinctMessages(log, start, position, mList, list, namespace);
    forall i | 0 <= i < |mList|
      ensures Handled(okIds + OkIds(list, results), repeats + Repeats(list, results), ToMessage(namespace, mList[i]))
    {
      AnsweredBatchIsHandled(list, outcomes, results, okIds, repeats, i);
      assert list[i] == ToMessage(namespace, mList[i]);
    }
  }

  lemma LastWasRead(log: Log, start: Offsets, position: Offsets, mList: seq<KafkaMessage>, partition: int)
    requires Fetched(log, start, position, mList) && At(start, partition) < At(position, partition)
    ensures log(Position(partition, At(position, partition) - 1)).Some?
  {
    var i :| 0 <= i < |mList| && mList[i].position == Position(partition, At(position, partition) - 1);
  }

  lemma NothingToSkip(log: Log, committed: Offsets, start: Offsets, position: Offsets, mList: seq<KafkaMessage>, p: Position)
    requires OneMessageEach(log) && Fetched(log, start, position, mList)
    ensures !Skipped(log, committed, start, position, p)
  {
    if At(start, p.partition) < At(position, p.partition) {
      LastWasRead(log, start, position, mList, p.partition);
    }
  }

  lemma KeptStepIsSafe(namespace: string, log: Log, s: Kept, s': Kept, r: Round)
    requires OneMessageEach(log) && KeptStep(namespace, log, s, s', r) && Safe(namespace, log, s)
    ensures Safe(namespace, log, s')
  {
    if r.results.Some? {
      HandlingKeepsNoLoss(namespace, log, s.committed, s.okIds, s.repeats, s'.okIds, s'.repeats);
      AnsweredRound(namespace, log, s.committed, s.position, s'.position, r.mList, r.outcomes, r.results.value, s.okIds, s.repeats);
      forall p ensures !Skipped(log, s.committed, s.position, s'.position, p) {
        NothingToSkip(log, s.committed, s.position, s'.position, r.mList, p);
      }
      NothingSkippedIsSafe(namespace, log, s.committed, s'.committed, s.position, s'.position, r.mList, s'.okIds, s'.repeats);
    }
  }

  lemma {:induction false} KeptRunIsSafe(namespace: string, log: Log, states: seq<Kept>, rounds: seq<Round>, k: nat)
    requires OneMessageEach(log) && KeptRun(namespace, log, states, rounds) && k <= |rounds|
    ensures Safe(namespace, log, states[k])
  {
    if k > 0 {
      KeptRunIsSafe(namespace, log, states, rounds, k - 1);
      assert KeptStepAt(namespace, log, states, rounds, k - 1);
      KeptStepIsSafe(namespace, log, states[k - 1], states[k], rounds[k - 1]);
    }
  }

  /** The first message of a partition from an offset on. */
  lemma {:induction false} NextMessage(log: Log, partition: int, from: int, last: int) returns (offset: int)
    requires from <= last && log(Position(partition, last)).Some?
    ensures from <= offset <= last && log(Position(partition, offset)).Some?
    ensures forall o :: from <= o < offset ==> log(Position(partition, o)).None?
    decreases last - from
  {
    if log(Position(partition, from)).Some? {
      offset := from;
    } else {
      offset := NextMessage(log, partition, from + 1, last);
    }
  }

  lemma ReadOne(log: Log, before: Offsets, m: KafkaMessage)
    requires log(m.position) == Some(m.record) && SkipsNothing(log, before, m.position)
    ensures Fetched(log, before, before[m.position.partition := m.position.offset + 1], [m])
  {
    assert Fetched(log, before, before, []);
    ExtendFetched(log, before, before, before[m.position.partition := m.position.offset + 1], [], m);
    assert [] + [m] == [m];
  }

  lemma AnswerOk(m: Message) returns (results: seq<Result>)
    ensures SdkAnswer([m], [None], results) && OkIds([m], results) == {m.id} && Repeats([m], results) == []
  {
    results := [Result(m.id, true, false, 0, "")];
    assert AnswersInOrder([m], [None], results, [0]);
    assert Find([m], m.id).Some?;
    assert results[..0] == [];
  }

  /** The offsets of a reader, or of a broker, after message m and no other partition. */
  function ReadTo(m: KafkaMessage): Offsets {
    map[m.position.partition := m.position.offset + 1]
  }

  lemma FailedRound(namespace: string, log: Log, m: KafkaMessage)
    requires log(m.position) == Some(m.record) && SkipsNothing(log, map[], m.position)
    ensures KeptStep(namespace, log, KEPT_START, Kept(map[], ReadTo(m), {}, []), Round([m], None, []))
  {
    var start: Offsets := map[];
    ReadOne(log, start, m);
    assert start[m.position.partition := m.position.offset + 1] == ReadTo(m);
  }

  lemma NextRound(namespace: string, log: Log, m: KafkaMessage, n: KafkaMessage) returns (results: seq<Result>)
    requires m.position.partition == n.position.partition
    requires log(n.position) == Some(n.record) && SkipsNothing(log, ReadTo(m), n.position)
    ensures KeptStep(namespace, log, Kept(map[], ReadTo(m), {}, []),
                     Kept(ReadTo(n), ReadTo(n), {MessageId(namespace, n.position)}, []), Round([n], Some(results), [None]))
  {
    ReadOne(log, ReadTo(m), n);
    assert ReadTo(m)[n.position.partition := n.position.offset + 1] == ReadTo(n);
    results := AnswerOk(ToMessage(namespace, n));
    assert ToMessages(namespace, [n]) == [ToMessage(namespace, n)];
  }

  lemma FirstIsLost(namespace: string, log: Log, m: KafkaMessage, n: KafkaMessage)
    requires m.position.partition == n.position.partition && 0 <= m.position.offset < n.position.offset
    requires log(m.position).Some?
    ensures !NoLoss(namespace, log, ReadTo(n), {MessageId(namespace, n.position)}, [])
  {
    IdsAreInjective(namespace, m.position, namespace, n.position);
    assert !HandledAt(namespace, log, {MessageId(namespace, n.position)}, [], m.position);
  }

  lemma TwoRounds(namespace: string, log: Log, s: Kept, s': Kept, first: Round, second: Round)
    requires KeptStep(namespace, log, KEPT_START, s, first) && KeptStep(namespace, log, s, s', second)
    ensures KeptRun(namespace, log, [KEPT_START, s, s'], [first, second])
  {
    var states, rounds := [KEPT_START, s, s'], [first, second];
    forall k | 0 <= k < 2 ensures KeptStepAt(namespace, log, states, rounds, k) {
      assert k == 0 || k == 1;
    }
  }

  /**
   Without the reconnect: the batch with the first message of a partition fails, the reader goes on with
   the next one, which is answered ok and committed, and the first one is lost.
   */
  lemma SkippedReconnectLoses(namespace: string, log: Log, p: Position, q: Position) returns (states: seq<Kept>, rounds: seq<Round>)
    requires p.partition == q.partition && 0 <= p.offset < q.offset && log(p).Some? && log(q).Some?
    ensures KeptRun(namespace, log, states, rounds) && |rounds| == 2
    ensures rounds[0].results.None? && rounds[1].results.Some? && !Safe(namespace, log, states[2])
  {
    assert p == Position(p.partition, p.offset) && q == Position(p.partition, q.offset);
    var first := NextMessage(log, p.partition, 0, p.offset);
    var second := NextMessage(log, p.partition, first + 1, q.offset);
    var a, b := Position(p.partition, first), Position(p.partition, second);
    var m, n := KafkaMessage(a, log(a).value), KafkaMessage(b, log(b).value);
    FailedRound(namespace, log, m);
    var results := NextRound(namespace, log, m, n);
    FirstIsLost(namespace, log, m, n);
    var s, s' := Kept(map[], ReadTo(m), {}, []), Kept(ReadTo(n), ReadTo(n), {MessageId(namespace, b)}, []);
    states, rounds := [KEPT_START, s, s'], [Round([m], None, []), Round([n], Some(results), [None])];
    TwoRounds(namespace, log, s, s', rounds[0], rounds[1]);
  }

  /** A reader that is never replaced loses nothing in any run if and only if no partition has two messages. */
  lemma NeverReconnectingIsSafeIff(namespace: string, log: Log)
    ensures AlwaysSafe(namespace, log) <==> OneMessageEach(log)
  {
    if OneMessageEach(log) {
      forall states: seq<Kept>, rounds: seq<Round> | KeptRun(namespace, log, states, rounds)
        ensures Safe(namespace, log, states[|rounds|])
      {
        KeptRunIsSafe(namespace, log, states, rounds, |rounds|);
      }
    } else {
      var p: Position, q: Position :| p.partition == q.partition && 0 <= p.offset < q.offset && log(p).Some? && log(q).Some?;
      var states, rounds := SkippedReconnectLoses(namespace, log, p, q);
    }
  }
}

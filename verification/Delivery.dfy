/**
 From Kafka to the end of a message: the consumer, the client's stream and the retry table together. For
 a record below a committed offset the client's handler was called with its content and returned no
 error, or it returned an error and the record has a row in the retry table with that error, or the row
 left the table because it was answered ok later or because an operator deleted it.
 */
module Delivery {
  import opened Wrappers
  import opened Backoff
  import opened MessageIds
  import opened ConsumeHandler
  import opened KafkaConsumer
  import RetryRecords
  import RetryTable
  import Repeater

  /** The row is for the record at p, on behalf of the subscriber, column by column. */
  predicate IsRowFor(row: RetryRecords.Record, c: Subscriber, namespace: string, p: Position, record: KafkaConsumer.Record) {
    && row.topic == c.topic && row.group == c.group && row.consumer == c.consumer
    && row.message == RetryRecords.Text(MessageId(namespace, p))
    && row.payload.key == (if record.key != [] then Some(record.key) else None)
    && row.payload.data == record.value && row.payload.headers == record.headers
  }

  /** The row as it is stored at clock `now` after the client's handler returned the error. */
  predicate IsFirstRow(row: RetryRecords.Record, now: int, standard: Strategy, e: ProcessError) {
    && row.error == RetryRecords.Text(e.message) && row.deferred == e.RetryLater?
    && row.attempt == 0 && row.finishedAt == None
    && row.startedAt == now + if e.RetryLater? && e.delay > 0 then DurationSeconds(e.delay)
                              else Delay(if row.strategy.Some? then row.strategy.value else standard, 0)
  }

  /** Row `id` is in the table at the end of the run, or it was discharged when it was last seen. */
  ghost predicate IsAccounted(config: RetryTable.Config, run: seq<RetryTable.State>, actions: seq<RetryTable.Action>, id: int,
                              c: Subscriber, namespace: string, p: Position, record: KafkaConsumer.Record)
    requires |run| == |actions| + 1
  {
    if id in run[|actions|].table then IsRowFor(run[|actions|].table[id], c, namespace, p, record)
    else
      var j := RetryTable.LastSeen(run, id);
      && j < |actions| && id in run[j].table && IsRowFor(run[j].table[id], c, namespace, p, record)
      && RetryTable.Discharges(config, run[j], actions[j], id)
  }

  /** Step k stored the record after the error, and its row is accounted for. */
  ghost predicate IsStored(h: Handler, k: nat, namespace: string, p: Position, record: KafkaConsumer.Record, e: ProcessError)
    reads h, h.retries
    requires h.Valid()
  {
    var config, run, actions := h.retries.config, h.retries.run, h.retries.actions;
    && k < |actions| && actions[k].Insert?
    && IsRowFor(actions[k].row, h.subscriber, namespace, p, record) && IsFirstRow(actions[k].row, actions[k].now, config.standard, e)
    && IsAccounted(config, run, actions, actions[k].row.id, h.subscriber, namespace, p, record)
  }

  /** The client's handler was called with the record's content under its id, and returned the outcome. */
  ghost predicate HandlerReturned(c: Consumer, p: Position, record: KafkaConsumer.Record, err: Option<ProcessError>)
    reads c.stream
  {
    exists m: Message ::
      && m.id == MessageId(c.namespace, p) && m.key == record.key && m.value == record.value && m.headers == record.headers
      && c.stream.Past().Called(m, err)
  }

  ghost predicate IsDelivered(c: Consumer, p: Position, record: KafkaConsumer.Record)
    reads c, c.handler, c.handler.retries, c.stream
    requires c.Valid()
  {
    || HandlerReturned(c, p, record, None)
    || exists e, k: nat :: HandlerReturned(c, p, record, Some(e)) && IsStored(c.handler, k, c.namespace, p, record, e)
  }

  lemma OkIsDelivered(c: Consumer, p: Position)
    requires c.Valid() && c.log(p).Some? && MessageId(c.namespace, p) in c.handler.okIds
    ensures HandlerReturned(c, p, c.log(p).value, None)
  {
    var id := MessageId(c.namespace, p);
    assert OkIsReal(c.stream.Past(), c.namespace, c.log, id);
    var q, m :| IsMessageAt(m, c.namespace, c.log, q) && m.id == id && c.stream.Past().Called(m, None);
    IdsAreInjective(c.namespace, p, c.namespace, q);
  }

  lemma RowIsFirst(row: RetryRecords.Record, now: int, c: Subscriber, standard: Strategy, r: ConsumeHandler.Repeat, m: Message, e: ProcessError)
    requires IsRowOf(row, now, c, standard, r) && StoresFailure(r, m, e)
    ensures IsFirstRow(row, now, standard, e)
  {
  }

  lemma RepeatIsStored(h: Handler, r: ConsumeHandler.Repeat, namespace: string, p: Position, record: KafkaConsumer.Record, m: Message, e: ProcessError)
    returns (k: nat)
    requires h.Valid() && Stored(h.retries.actions, h.subscriber, h.retries.config.standard, r) && StoresFailure(r, m, e)
    requires m.id == MessageId(namespace, p) && m.key == record.key && m.value == record.value && m.headers == record.headers
    ensures IsStored(h, k, namespace, p, record, e)
  {
    var actions, standard := h.retries.actions, h.retries.config.standard;
    k :| 0 <= k < |actions| && actions[k].Insert? && IsRowOf(actions[k].row, actions[k].now, h.subscriber, standard, r);
    RowIsFirst(actions[k].row, actions[k].now, h.subscriber, standard, r, m, e);
    RetryTable.AddedRowIsAccounted(h.retries.config, h.retries.run, actions, h.retries.workers, k);
  }

  lemma RepeatIsDelivered(c: Consumer, p: Position, i: nat)
    requires c.Valid() && c.log(p).Some? && i < |c.handler.repeats| && c.handler.repeats[i].messageId == MessageId(c.namespace, p)
    ensures IsDelivered(c, p, c.log(p).value)
  {
    var r := c.handler.repeats[i];
    assert RepeatIsReal(c.stream.Past(), c.namespace, c.log, r);
    var q, m, e :| IsMessageAt(m, c.namespace, c.log, q) && c.stream.Past().Called(m, Some(e)) && StoresFailure(r, m, e);
    IdsAreInjective(c.namespace, p, c.namespace, q);
    assert HandlerReturned(c, p, c.log(p).value, Some(e));
    var k := RepeatIsStored(c.handler, r, c.namespace, p, c.log(p).value, m, e);
  }

  /** Every record below a committed offset is delivered in this sense. */
  ghost predicate NothingIsLost(c: Consumer)
    reads c, c.handler, c.handler.retries, c.stream
    requires c.Valid()
  {
    forall p: Position :: 0 <= p.offset < At(c.committed, p.partition) && c.log(p).Some? ==> IsDelivered(c, p, c.log(p).value)
  }

  lemma ValidLosesNothing(c: Consumer)
    requires c.Valid()
    ensures NothingIsLost(c)
  {
    forall p: Position | 0 <= p.offset < At(c.committed, p.partition) && c.log(p).Some?
      ensures IsDelivered(c, p, c.log(p).value)
    {
      assert HandledAt(c.namespace, c.log, c.handler.okIds, c.handler.repeats, p);
      if MessageId(c.namespace, p) in c.handler.okIds {
        OkIsDelivered(c, p);
      } else {
        var record := c.log(p).value;
        var m := Message(MessageId(c.namespace, p), record.key, record.value, record.headers);
        var i :| 0 <= i < |c.handler.repeats| && StoresMessage(c.handler.repeats[i], m);
        RepeatIsDelivered(c, p, i);
      }
    }
  }

  /**
   The consumer runs until it stops, while the repeaters and operators work on the table, and they go on
   working on it afterwards: nothing below a committed offset is lost.
   */
  method ConsumeAndRepeat(c: Consumer, attempts: nat, rounds: nat)
    requires c.Valid() && InStep(c.committed, c.position)
    modifies c, c.handler, c.handler.retries, c.stream
    ensures c.Valid() && Advances(old(c.committed), c.committed) && NothingIsLost(c)
  {
    var _, _ := c.ConsumeLoop(attempts, rounds);
    ghost var actions := c.handler.retries.actions;
    c.handler.retries.Others();
    StillStored(actions, c.handler.retries.actions, c.handler.subscriber, c.handler.retries.config.standard, c.handler.repeats);
    ValidLosesNothing(c);
  }

  /**
   The row of a failed record is delivered again: when its start has come and the topic and group of its
   subscriber are connected, an iteration selects it.
   */
  lemma StoredRowIsSelected(h: Handler, k: nat, namespace: string, p: Position, record: KafkaConsumer.Record, e: ProcessError,
                            connected: set<string>, now: int)
    requires h.Valid() && IsStored(h, k, namespace, p, record, e)
    requires var id, t := h.retries.actions[k].row.id, h.retries.state.table;
             id in t && t[id].finishedAt == None && t[id].startedAt <= now
    requires h.subscriber.topic.value + "|" + h.subscriber.group.value in connected
    ensures h.retries.actions[k].row.id in Repeater.Selected(h.retries.state.table, connected, now)
  {
  }

  /**
   With clients built on the SDK, a record whose row was answered ok was answered under its own id, and
   the client's handler returned no error.
   */
  lemma AnsweredUnderOwnId(h: Handler, errs: seq<Option<ProcessError>>, id: int, namespace: string, p: Position, record: KafkaConsumer.Record)
    requires h.Valid() && Repeater.SdkReplies(h.retries.run, h.retries.actions, errs)
    requires IsAccounted(h.retries.config, h.retries.run, h.retries.actions, id, h.subscriber, namespace, p, record)
    requires id !in h.retries.state.table && h.retries.actions[RetryTable.LastSeen(h.retries.run, id)].Process?
    ensures var k := RetryTable.LastSeen(h.retries.run, id);
      var reply := h.retries.actions[k].reply;
      && k < |errs| && errs[k] == None
      && |reply.results| == 1 && reply.results[0].ok && reply.results[0].id == RetryRecords.Text(MessageId(namespace, p))
  {
    var j := RetryTable.LastSeen(h.retries.run, id);
    Repeater.RowsAreConservedBySdk(h.retries.config, h.retries.run, h.retries.actions, errs, h.retries.workers, j, id);
  }
}

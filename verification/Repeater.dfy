/**
 The repeater: it reads the due rows into copies, splits them by consumer, delivers every copy and
 writes the outcome back. What consumers reply, which writes fail and when each happens is given by
 a `Round`, so the contracts hold for every one of them.
 */
module Repeater {
  import opened Wrappers
  import opened Backoff
  import opened RetryRecords
  import opened RetryTable
  import ErrorClasses
  import ConsumeHandler
  import ConsumeExchange
  import ConsumeStream
  import MessageIds

  datatype Round = Round(reply: int -> Reply, lost: int -> bool, clock: int -> int)

  /** A delay below one second is no delay of the consumer's own. */
  function RetryAfter(seconds: int): int {
    if seconds <= 0 then 0 else seconds
  }

  /** A list of stream results as the repeater reads it. */
  function ReplyOf(results: seq<ConsumeStream.Result>): Reply {
    Answered(seq(|results|, i requires 0 <= i < |results| =>
      Result(Text(results[i].id), results[i].ok, Failure(results[i].retryLater, RetryAfter(results[i].retryAfterSec)), Text(results[i].message))))
  }

  /** The batch of one message that the repeater sends for a copy. */
  predicate IsBatchFor(m: MessageIds.Message, r: Record) {
    && m.id == r.message.value && m.value == r.payload.data && m.headers == r.payload.headers
    && m.key == if r.payload.key.Some? then r.payload.key.value else []
  }

  /** The SDK answers it with one result under the message's own id, which says what its handler returned. */
  lemma SdkReplyNamesRow(r: Record, m: MessageIds.Message, err: Option<ConsumeHandler.ProcessError>, results: seq<ConsumeStream.Result>)
    requires m.id == r.message.value && ConsumeHandler.SdkAnswer([m], [err], results)
    ensures |ReplyOf(results).results| == 1
    ensures var first := ReplyOf(results).results[0];
      && first.id == r.message && (first.ok <==> err == None)
      && (err.Some? ==> first.message == Text(err.value.message) && (first.failure.retryLater <==> err.value.RetryLater?))
      && (err.Some? && err.value.RetryLater? ==> first.failure.retryAfter == ConsumeHandler.DurationSeconds(err.value.delay))
      && (err.Some? && err.value.Failed? ==> first.failure.retryAfter == 0)
  {
    var j := ConsumeHandler.SdkAnswersEveryMessage([m], [err], results, 0);
    ConsumeExchange.AnswerLength([m], [err], results);
    assert j == 0;
  }

  /** The reply is the SDK's answer to the copy's batch, after the client's handler returned the outcome. */
  ghost predicate IsSdkReply(r: Record, reply: Reply, err: Option<ConsumeHandler.ProcessError>) {
    reply.Unanswered? || exists m: MessageIds.Message, results: seq<ConsumeStream.Result> ::
      IsBatchFor(m, r) && ConsumeHandler.SdkAnswer([m], [err], results) && reply == ReplyOf(results)
  }

  ghost predicate AnsweredBySdk(s: State, a: Action, err: Option<ConsumeHandler.ProcessError>) {
    a.Process? && a.worker < |s.workers| && a.id in s.workers[a.worker] ==> IsSdkReply(s.workers[a.worker][a.id], a.reply, err)
  }

  /** In this run every client is built on the SDK; errs is what its handler returned at each delivery. */
  ghost predicate SdkReplies(run: seq<State>, actions: seq<Action>, errs: seq<Option<ConsumeHandler.ProcessError>>) {
    |run| == |actions| + 1 && |errs| == |actions| && forall k :: 0 <= k < |actions| ==> AnsweredBySdk(run[k], actions[k], errs[k])
  }

  lemma SdkReplyIsOwn(r: Record, reply: Reply, err: Option<ConsumeHandler.ProcessError>)
    requires IsSdkReply(r, reply, err) && reply.Answered?
    ensures |reply.results| == 1 && reply.results[0].id == r.message && (reply.results[0].ok <==> err == None)
  {
    var m: MessageIds.Message, results: seq<ConsumeStream.Result> :|
      IsBatchFor(m, r) && ConsumeHandler.SdkAnswer([m], [err], results) && reply == ReplyOf(results);
    SdkReplyNamesRow(r, m, err, results);
  }

  /**
   With clients built on the SDK, a row that was answered ok was answered under its own message id, and
   the client's handler returned no error for it.
   */
  lemma RowsAreConservedBySdk(c: Config, run: seq<State>, actions: seq<Action>, errs: seq<Option<ConsumeHandler.ProcessError>>,
                              workers: nat, i: nat, id: int)
    requires IsRun(c, run, actions, workers) && SdkReplies(run, actions, errs)
    requires i < |run| && id in run[i].table && id !in run[|actions|].table
    ensures var k := LastSeen(run, id);
      && i <= k < |actions| && id in run[k].table && Discharges(c, run[k], actions[k], id)
      && (actions[k].Process? ==> |actions[k].reply.results| == 1 && actions[k].reply.results[0].ok && errs[k] == None
                                  && actions[k].reply.results[0].id == run[k].table[id].message)
  {
    RowsAreConserved(c, run, actions, workers, i, id);
    var k := LastSeen(run, id);
    RunInv(c, run[..k + 1], actions[..k], workers);
    assert Enabled(c, run[k], actions[k]) && AnsweredBySdk(run[k], actions[k], errs[k]);
    if actions[k].Process? {
      assert CopiesSound(run[k].workers[actions[k].worker], run[k].table, c.standard);
      SdkReplyIsOwn(run[k].workers[actions[k].worker][id], actions[k].reply, errs[k]);
    }
  }

  function Label(topic: Text, group: Text): string {
    topic.value + "|" + group.value
  }

  function Lookup(t: Table, id: int): Option<Record> {
    if id in t then Some(t[id]) else None
  }

  /** The ids a repeater selects: unfinished, due, and of a topic and group somebody consumes. */
  function Selected(t: Table, connected: set<string>, now: int): set<int> {
    set id | id in t && Due(t[id], now) && Label(t[id].topic, t[id].group) in connected
  }

  /** An iteration reads the unfinished rows whose start has come and whose topic and group somebody consumes. */
  predicate IsRead(r: Record, connected: set<string>, now: int) {
    r.finishedAt == None && r.startedAt <= now && r.topic.value + "|" + r.group.value in connected
  }

  predicate Keyed(t: Table) {
    forall id | id in t :: t[id].id == id
  }

  /** A finished row of a topic and group, failed at or after `since`, with an error of the message's class. */
  predicate InClass(r: Record, topic: Text, group: Text, since: Option<int>, message: Text, cls: Text -> Text) {
    Selects(Filter(topic, group, since, None), r) && cls(r.error) == cls(message)
  }

  /** The distinct errors of failed rows, as a query lists them. */
  predicate ListsErrors(rows: seq<Text>, t: Table, f: Filter) {
    && (forall i | 0 <= i < |rows| :: exists id :: id in t && Selects(f, t[id]) && t[id].error == rows[i])
    && (forall id | id in t && Selects(f, t[id]) :: t[id].error in rows)
  }

  // ---------------------------------------------------------------- one iteration as a relation

  /** What one delivery makes of a row that is its own copy. */
  function After(r: Record, id: int, round: Round, standard: Strategy): Option<Record> {
    if round.lost(id) then Some(r)
    else
      match EffectOf(r, round.reply(id), standard, round.clock(id))
      case Keep => Some(r)
      case Drop => None
      case Write(w) => Some(w)
  }

  /** The row `after` a failed delivery of its copy: the columns of the copy, changed as the reply says. */
  predicate FailedRow(before: Record, after: Record, copy: Record, reply: Reply, standard: Strategy, now: int)
    requires reply.Answered?
  {
    var s := if copy.strategy.Some? then copy.strategy.value else standard;
    var f := if reply.results == [] then Failure(false, 0) else reply.results[0].failure;
    && after == before.(attempt := after.attempt, error := after.error, deferred := f.retryLater,
                        startedAt := after.startedAt, finishedAt := after.finishedAt)
    && after.error == (if reply.results == [] then Text("empty result list") else reply.results[0].message)
    && (f.retryLater ==> after.attempt == copy.attempt && after.finishedAt == None)
    && (!f.retryLater && s.maxAttempts <= copy.attempt ==>
          after.attempt == copy.attempt && after.startedAt == copy.startedAt && after.finishedAt == Some(now))
    && (!f.retryLater && copy.attempt < s.maxAttempts ==> after.attempt == copy.attempt + 1 && after.finishedAt == copy.finishedAt)
    && (after.finishedAt == None ==> after.startedAt == now + if f.retryAfter > 0 then f.retryAfter else Delay(s, copy.attempt + 1))
  }

  /** Each row in `done` was delivered exactly once and every other row is untouched. */
  ghost predicate Handled(before: Table, after: Table, done: set<int>, round: Round, standard: Strategy) {
    forall id :: Lookup(after, id) ==
      if id in done && id in before then After(before[id], id, round, standard) else Lookup(before, id)
  }

  /** The row is read by the iteration, its consumer answers, and the outcome is written. */
  predicate IsDelivered(r: Record, id: int, connected: set<string>, now: int, round: Round) {
    IsRead(r, connected, now) && !round.lost(id) && round.reply(id).Answered?
  }

  /**
   One iteration, row by row: a row that is finished, not due, not of a connected topic and group, not
   answered or not written stays as it is; any other leaves if it was answered ok, or takes its failure.
   */
  ghost predicate IterationOf(before: Table, after: Table, connected: set<string>, now: int, round: Round, standard: Strategy) {
    && after.Keys <= before.Keys
    && forall id | id in before ::
         if !IsDelivered(before[id], id, connected, now, round) then id in after && after[id] == before[id]
         else if round.reply(id).results != [] && round.reply(id).results[0].ok then id !in after
         else id in after && FailedRow(before[id], after[id], before[id], round.reply(id), standard, round.clock(id))
  }

  lemma HandledIsIteration(before: Table, after: Table, connected: set<string>, now: int, round: Round, standard: Strategy)
    requires Handled(before, after, Selected(before, connected, now), round, standard)
    ensures IterationOf(before, after, connected, now, round, standard)
  {
    forall id ensures id in after ==> id in before {
      assert Lookup(after, id) == if id in Selected(before, connected, now) && id in before then After(before[id], id, round, standard) else Lookup(before, id);
    }
    forall id | id in before
      ensures
        if !IsDelivered(before[id], id, connected, now, round) then id in after && after[id] == before[id]
        else if round.reply(id).results != [] && round.reply(id).results[0].ok then id !in after
        else id in after && FailedRow(before[id], after[id], before[id], round.reply(id), standard, round.clock(id))
    {
      EffectChanges(before[id], round.reply(id), standard, round.clock(id));
      assert Lookup(after, id) == if id in Selected(before, connected, now) then After(before[id], id, round, standard) else Some(before[id]);
    }
  }

  lemma HandleOne(before: Table, t: Table, done: set<int>, copy: Record, round: Round, standard: Strategy)
    requires Keyed(before) && Handled(before, t, done, round, standard)
    requires copy.id in before && copy == before[copy.id] && copy.id !in done
    ensures var e := EffectOf(copy, round.reply(copy.id), standard, round.clock(copy.id));
      Handled(before, if round.lost(copy.id) then t else Persist(t, copy.id, e), done + {copy.id}, round, standard)
  {
    assert Lookup(t, copy.id) == Some(copy);
  }

  lemma HandledCompose(a: Table, b: Table, c: Table, done: set<int>, more: set<int>, round: Round, standard: Strategy)
    requires Handled(a, b, done, round, standard) && Handled(b, c, more, round, standard)
    requires done !! more
    ensures Handled(a, c, done + more, round, standard)
  {
    forall id
      ensures Lookup(c, id) ==
        if id in done + more && id in a then After(a[id], id, round, standard) else Lookup(a, id)
    {
      assert Lookup(b, id) == if id in done && id in a then After(a[id], id, round, standard) else Lookup(a, id);
      assert Lookup(c, id) == if id in more && id in b then After(b[id], id, round, standard) else Lookup(b, id);
    }
  }

  lemma HandledIsUnique(before: Table, x: Table, y: Table, done: set<int>, round: Round, standard: Strategy)
    requires Handled(before, x, done, round, standard) && Handled(before, y, done, round, standard)
    ensures x == y
  {
    assert x.Keys == y.Keys by {
      forall id ensures id in x <==> id in y {
        assert Lookup(x, id) == Lookup(y, id);
      }
    }
    forall id | id in x ensures x[id] == y[id] {
      assert Lookup(x, id) == Lookup(y, id);
    }
  }

  // ---------------------------------------------------------------- copies

  function IdsOf(list: seq<Repeat>): set<int> {
    if list == [] then {} else IdsOf(list[..|list| - 1]) + {list[|list| - 1].id}
  }

  function OfConsumer(list: seq<Repeat>, consumer: Text): seq<Repeat> {
    if list == [] then []
    else
      var last := list[|list| - 1];
      OfConsumer(list[..|list| - 1], consumer) + if last.consumer == consumer then [last] else []
  }

  predicate DistinctIds(list: seq<Repeat>) {
    forall i, j | 0 <= i < j < |list| :: list[i].id != list[j].id
  }

  ghost predicate Current(list: seq<Repeat>, t: Table)
    reads list
  {
    forall i | 0 <= i < |list| :: list[i].id in t && list[i].Value() == t[list[i].id]
  }

  lemma {:induction false} IdsOfMembers(list: seq<Repeat>, id: int)
    ensures id in IdsOf(list) <==> exists i :: 0 <= i < |list| && list[i].id == id
  {
    if list != [] {
      var init := list[..|list| - 1];
      IdsOfMembers(init, id);
      if id in IdsOf(init) {
        var i :| 0 <= i < |init| && init[i].id == id;
        assert list[i].id == id;
      }
      if i :| 0 <= i < |list| && list[i].id == id {
        assert i == |list| - 1 || init[i].id == id;
      }
    }
  }

  lemma {:induction false} OfConsumerMember(list: seq<Repeat>, consumer: Text, o: Repeat)
    ensures o in OfConsumer(list, consumer) <==> o in list && o.consumer == consumer
  {
    if list != [] {
      var init, last := list[..|list| - 1], list[|list| - 1];
      assert list == init + [last];
      OfConsumerMember(init, consumer, o);
    }
  }

  lemma {:induction false} OfConsumerDistinct(list: seq<Repeat>, consumer: Text)
    requires DistinctIds(list)
    ensures DistinctIds(OfConsumer(list, consumer))
  {
    if list != [] {
      var init, last := list[..|list| - 1], list[|list| - 1];
      OfConsumerDistinct(init, consumer);
      var rest := OfConsumer(init, consumer);
      forall i | 0 <= i < |rest| ensures rest[i].id != last.id {
        OfConsumerMember(init, consumer, rest[i]);
      }
    }
  }

  lemma {:induction false} IdInGroup(list: seq<Repeat>, consumer: Text, i: nat)
    requires DistinctIds(list) && i < |list|
    ensures list[i].id in IdsOf(OfConsumer(list, consumer)) <==> list[i].consumer == consumer
  {
    var group := OfConsumer(list, consumer);
    IdsOfMembers(group, list[i].id);
    OfConsumerMember(list, consumer, list[i]);
    if j :| 0 <= j < |group| && group[j].id == list[i].id {
      OfConsumerMember(list, consumer, group[j]);
    }
    if list[i].consumer == consumer {
      var j :| 0 <= j < |group| && group[j] == list[i];
    }
  }

  lemma GroupIds(list: seq<Repeat>, consumer: Text)
    ensures IdsOf(OfConsumer(list, consumer)) <= IdsOf(list)
  {
    var group := OfConsumer(list, consumer);
    forall id | id in IdsOf(group) ensures id in IdsOf(list) {
      IdsOfMembers(group, id);
      var j :| 0 <= j < |group| && group[j].id == id;
      OfConsumerMember(list, consumer, group[j]);
      IdsOfMembers(list, id);
    }
  }

  function ConsumersOf(list: seq<Repeat>): set<Text> {
    if list == [] then {} else ConsumersOf(list[..|list| - 1]) + {list[|list| - 1].consumer}
  }

  lemma {:induction false} ConsumersOfMembers(list: seq<Repeat>, o: Repeat)
    requires o in list
    ensures o.consumer in ConsumersOf(list)
  {
    var init, last := list[..|list| - 1], list[|list| - 1];
    assert list == init + [last];
    if o != last {
      ConsumersOfMembers(init, o);
    }
  }

  lemma {:induction false} NoneOfConsumer(list: seq<Repeat>, consumer: Text)
    requires consumer !in ConsumersOf(list)
    ensures OfConsumer(list, consumer) == []
  {
    if list != [] {
      NoneOfConsumer(list[..|list| - 1], consumer);
    }
  }

  /** The list split by consumer: every consumer of the list, each with its retries in their order. */
  method GroupByConsumerId(list: seq<Repeat>) returns (groups: map<Text, seq<Repeat>>)
    ensures groups.Keys == ConsumersOf(list)
    ensures forall c | c in groups :: groups[c] == OfConsumer(list, c)
  {
    groups := map[];
    for k := 0 to |list|
      invariant groups.Keys == ConsumersOf(list[..k])
      invariant forall c | c in groups :: groups[c] == OfConsumer(list[..k], c)
    {
      var o := list[k];
      assert list[..k + 1][..k] == list[..k];
      if o.consumer !in groups {
        NoneOfConsumer(list[..k], o.consumer);
        groups := groups[o.consumer := []];
      }
      groups := groups[o.consumer := groups[o.consumer] + [o]];
    }
    assert list[..|list|] == list;
  }

  // ---------------------------------------------------------------- the table

  /** The rows a query returns: the ids it selects, once each, in any order. */
  predicate Lists(rows: seq<int>, ids: set<int>) {
    && (forall i, j | 0 <= i < j < |rows| :: rows[i] != rows[j])
    && (forall i | 0 <= i < |rows| :: rows[i] in ids)
    && (forall id | id in ids :: id in rows)
  }

  lemma CountedByColumns(t: Table)
    ensures FailedIds(t) == set id | id in t && t[id].finishedAt.Some?
    ensures DeferredIds(t) == set id | id in t && !t[id].finishedAt.Some? && t[id].deferred
  {
    var failed, deferred := set id | id in t && t[id].finishedAt.Some?, set id | id in t && !t[id].finishedAt.Some? && t[id].deferred;
    forall id | id in t ensures (id in FailedIds(t) <==> id in failed) && (id in DeferredIds(t) <==> id in deferred) {
    }
    assert FailedIds(t) == failed && DeferredIds(t) == deferred;
  }

  class Repository {
    var table: Table
    var nextId: int

    predicate Valid()
      reads this
    {
      Keyed(table) && IdsBelow(table, nextId)
    }

    constructor ()
      ensures Valid() && table == map[]
    {
      table, nextId := map[], 1;
    }

    /** Stores a new row under the next id, or fails and stores nothing. */
    method Insert(r: Record, failing: bool) returns (ok: bool)
      requires Valid()
      modifies this
      ensures Valid() && ok == !failing
      ensures table == if ok then old(table)[old(nextId) := r.(id := old(nextId))] else old(table)
      ensures ok ==> old(nextId) !in old(table)
    {
      ok := !failing;
      if ok {
        table := table[nextId := r.(id := nextId)];
      }
      nextId := nextId + 1;
    }

    /** Reads the due rows into new copies, one per row. */
    method FindForRepeat(rows: seq<int>, ghost connected: set<string>, ghost now: int) returns (list: seq<Repeat>)
      requires Valid() && Lists(rows, Selected(table, connected, now))
      ensures DistinctIds(list) && IdsOf(list) == Selected(table, connected, now)
      ensures Current(list, table) && forall i | 0 <= i < |list| :: fresh(list[i])
      ensures forall i | 0 <= i < |list| ::
        list[i].finishedAt == None && list[i].startedAt <= now && list[i].topic.value + "|" + list[i].group.value in connected
      ensures forall id | id in table && IsRead(table[id], connected, now) :: exists i :: 0 <= i < |list| && list[i].id == id
    {
      list := [];
      for k := 0 to |rows|
        invariant |list| == k && forall i | 0 <= i < k :: list[i].id == rows[i] && list[i].Value() == table[rows[i]]
        invariant forall i | 0 <= i < k :: fresh(list[i])
      {
        var o := new Repeat(table[rows[k]]);
        list := list + [o];
      }
      forall id
        ensures id in IdsOf(list) <==> id in Selected(table, connected, now)
        ensures id in IdsOf(list) <==> exists i :: 0 <= i < |list| && list[i].id == id
      {
        IdsOfMembers(list, id);
        if id in Selected(table, connected, now) {
          var i :| 0 <= i < |rows| && rows[i] == id;
          assert list[i].id == id;
        }
      }
      forall id | id in table && IsRead(table[id], connected, now) ensures exists i :: 0 <= i < |list| && list[i].id == id {
        assert id in Selected(table, connected, now);
      }
    }

    method Delete(id: int, failing: bool) returns (ok: bool)
      requires Valid()
      modifies this`table
      ensures Valid() && ok == !failing
      ensures table == if ok then Remove(old(table), id) else old(table)
    {
      ok := !failing;
      if ok {
        table := Remove(table, id);
      }
    }

    method UpdateAttempt(o: Repeat, failing: bool) returns (ok: bool)
      requires Valid()
      modifies this`table
      ensures Valid() && ok == !failing
      ensures table == if ok then RetryTable.UpdateAttempt(old(table), o.Value()) else old(table)
      ensures table.Keys == old(table).Keys && forall id | id in table && id != o.id :: table[id] == old(table)[id]
      ensures ok && o.id in table ==>
        table[o.id] == old(table)[o.id].(attempt := o.attempt, error := o.error, deferred := o.deferred,
                                         startedAt := o.startedAt, finishedAt := o.finishedAt)
    {
      ok := !failing;
      if ok && o.id in table {
        table := table[o.id := table[o.id].(attempt := o.attempt, error := o.error, deferred := o.deferred,
                                            startedAt := o.startedAt, finishedAt := o.finishedAt)];
      }
    }

    method FindFailedErrorsOfClass(rows: seq<Text>, ghost f: Filter, message: Text, cls: Text -> Text)
      returns (errors: set<Text>)
      requires f.errors.None? && ListsErrors(rows, table, f)
      ensures forall id | id in table && Selects(f, table[id]) ::
        table[id].error in errors <==> cls(table[id].error) == cls(message)
      ensures errors == OfClass(table, f, cls, message)
    {
      var list := ErrorClasses.ErrorsOfClass(rows, message, cls);
      errors := set e | e in list;
    }

    /** Restarts exactly the failed rows of the message's class that failed at or after `since`. */
    method RestartFailedByError(topic: Text, group: Text, message: Text, since: int, cls: Text -> Text,
                                rows: seq<Text>, now: int)
      requires Valid() && ListsErrors(rows, table, Filter(topic, group, Some(since), None))
      modifies this`table
      ensures Valid()
      ensures table == map id | id in old(table) ::
        (if InClass(old(table)[id], topic, group, Some(since), message, cls) then Restarted(old(table)[id], now)
         else old(table)[id])
      ensures table.Keys == old(table).Keys
      ensures forall id | id in table :: var r := old(table)[id];
        table[id] ==
          if r.finishedAt.Some? && r.topic == topic && r.group == group && r.finishedAt.value >= since && cls(r.error) == cls(message)
          then r.(startedAt := now, attempt := 0, error := Text(""), finishedAt := None) else r
    {
      var errors := FindFailedErrorsOfClass(rows, Filter(topic, group, Some(since), None), message, cls);
      assert forall id | id in table :: InClass(table[id], topic, group, Some(since), message, cls) <==>
        Selects(Filter(topic, group, Some(since), Some(errors)), table[id]);
      if errors != {} {
        table := Restart(table, Filter(topic, group, Some(since), Some(errors)), now);
      }
    }

    /** Deletes exactly the failed rows of the message's class. */
    method DeleteFailedByError(topic: Text, group: Text, message: Text, cls: Text -> Text, rows: seq<Text>)
      requires Valid() && ListsErrors(rows, table, Filter(topic, group, None, None))
      modifies this`table
      ensures Valid()
      ensures table == map id | id in old(table) && !InClass(old(table)[id], topic, group, None, message, cls) :: old(table)[id]
      ensures forall id | id in old(table) :: var r := old(table)[id];
        id !in table <==> r.finishedAt.Some? && r.topic == topic && r.group == group && cls(r.error) == cls(message)
      ensures forall id | id in table :: id in old(table) && table[id] == old(table)[id]
    {
      var errors := FindFailedErrorsOfClass(rows, Filter(topic, group, None, None), message, cls);
      assert forall id | id in table :: InClass(table[id], topic, group, None, message, cls) <==>
        Selects(Filter(topic, group, None, Some(errors)), table[id]);
      if errors != {} {
        table := Purge(table, Filter(topic, group, None, Some(errors)));
      }
    }

    /** The summary's counts: all rows, finished rows, rows pending because a consumer postponed them. */
    method GetCount() returns (all: nat, failed: nat, deferred: nat)
      requires Valid()
      ensures all == |table| && failed == |FailedIds(table)| && deferred == |DeferredIds(table)|
      ensures all == failed + deferred + |PendingIds(table)|
      ensures failed == |set id | id in table && table[id].finishedAt.Some?|
      ensures deferred == |set id | id in table && !table[id].finishedAt.Some? && table[id].deferred|
    {
      CountedByColumns(table);
      all, failed, deferred := |table|, |FailedIds(table)|, |DeferredIds(table)|;
      assert table.Keys == FailedIds(table) + DeferredIds(table) + PendingIds(table);
      assert |table.Keys| == |FailedIds(table) + DeferredIds(table)| + |PendingIds(table)|;
    }
  }

  // ---------------------------------------------------------------- the repeater

  class Repeater {
    const standard: Strategy
    const repo: Repository

    constructor (standard: Strategy, repo: Repository)
      ensures this.standard == standard && this.repo == repo
    {
      this.standard, this.repo := standard, repo;
    }

    /** Stores the first failed delivery of a message: a fresh row, postponed if the consumer said so. */
    method Add(data: RepeatData, error: Text, retryLater: bool, retryAfter: int, now: int, failing: bool)
      returns (ok: bool, ghost row: Record)
      requires repo.Valid()
      modifies repo
      ensures repo.Valid() && ok == !failing
      ensures repo.table == if ok then old(repo.table)[old(repo.nextId) := row] else old(repo.table)
      ensures row.id == old(repo.nextId) && Fresh(row) && row.deferred == retryLater && row.error == error
      ensures RepeatData(row.topic, row.group, row.consumer, row.message, row.payload, row.strategy) == data
      ensures row.startedAt == now + if retryAfter > 0 then retryAfter else Delay(row.Effective(standard), 0)
      ensures row == FirstRow(old(repo.nextId), data, error, retryLater, retryAfter, standard, now)
    {
      var repeat := new Repeat(Record(0, data.topic, data.group, data.consumer, data.message, data.payload,
                                      data.strategy, 0, error, retryLater, now, None));
      repeat.SetZeroAttempt(standard, now);
      if retryAfter > 0 {
        repeat.startedAt := now + retryAfter;
      }
      row := repeat.Value().(id := repo.nextId);
      ok := repo.Insert(repeat.Value(), failing);
    }

    /** Delivers one copy and writes the outcome of its reply. */
    method Process(o: Repeat, reply: Reply, failing: bool, now: int)
      requires repo.Valid()
      modifies repo`table, o
      ensures repo.Valid()
      ensures var e := EffectOf(old(o.Value()), reply, standard, now);
        repo.table == if failing then old(repo.table) else Persist(old(repo.table), o.id, e)
      ensures forall id | id != o.id :: Lookup(repo.table, id) == Lookup(old(repo.table), id)
      ensures failing || reply.Unanswered? ==> repo.table == old(repo.table)
      ensures !failing && reply.Answered? && reply.results != [] && reply.results[0].ok ==> o.id !in repo.table
      ensures !failing && o.id in old(repo.table) && reply.Answered? && (reply.results == [] || !reply.results[0].ok) ==>
        o.id in repo.table && FailedRow(old(repo.table)[o.id], repo.table[o.id], old(o.Value()), reply, standard, now)
    {
      EffectChanges(o.Value(), reply, standard, now);
      if reply.Unanswered? {
        return;
      }
      if |reply.results| == 0 {
        o.ApplyNextAttempt(standard, now);
        o.error := EMPTY_RESULTS;
        var _ := repo.UpdateAttempt(o, failing);
        return;
      }
      var first := reply.results[0];
      if first.ok {
        var _ := repo.Delete(o.id, failing);
      } else {
        o.ApplyFailure(standard, first.failure.retryLater, RetryAfter(first.failure.retryAfter), now);
        o.error := first.message;
        var _ := repo.UpdateAttempt(o, failing);
      }
    }

    method RepeatProcessor(list: seq<Repeat>, round: Round)
      requires repo.Valid() && DistinctIds(list) && Current(list, repo.table)
      modifies repo`table, list
      ensures repo.Valid()
      ensures Handled(old(repo.table), repo.table, IdsOf(list), round, standard)
    {
      ghost var before := repo.table;
      for k := 0 to |list|
        invariant repo.Valid()
        invariant Handled(before, repo.table, IdsOf(list[..k]), round, standard)
        invariant forall j | k <= j < |list| :: list[j].id in before && list[j].Value() == before[list[j].id]
      {
        var o := list[k];
        IdsOfMembers(list[..k], o.id);
        HandleOne(before, repo.table, IdsOf(list[..k]), o.Value(), round, standard);
        assert list[..k + 1][..k] == list[..k];
        Process(o, round.reply(o.id), round.lost(o.id), round.clock(o.id));
      }
      assert list[..|list|] == list;
    }

    /**
     One iteration: every selected row is delivered exactly once and changed as its own reply says;
     no other row changes.
     */
    method Repeat(connected: set<string>, now: int, unreadable: bool, rows: seq<int>, round: Round) returns (ok: bool)
      requires repo.Valid() && Lists(rows, Selected(repo.table, connected, now))
      modifies repo`table
      ensures repo.Valid() && ok == !unreadable
      ensures ok ==> Handled(old(repo.table), repo.table, Selected(old(repo.table), connected, now), round, standard)
      ensures !ok ==> repo.table == old(repo.table)
      ensures ok ==> IterationOf(old(repo.table), repo.table, connected, now, round, standard)
    {
      if unreadable {
        return false;
      }
      ok := true;
      var list := repo.FindForRepeat(rows, connected, now);
      var groups := GroupByConsumerId(list);
      ghost var before := repo.table;
      var left := groups.Keys;
      ghost var done := {};
      forall i | 0 <= i < |list| ensures list[i].consumer in left {
        ConsumersOfMembers(list, list[i]);
      }
      while left != {}
        invariant left <= groups.Keys && repo.Valid()
        invariant Handled(before, repo.table, done, round, standard)
        invariant done <= IdsOf(list) && forall i | 0 <= i < |list| :: list[i].id in done <==> list[i].consumer !in left
        invariant Unchanged(list, left, before)
        decreases |left|
      {
        var c :| c in left;
        ghost var group := groups[c];
        DeliverGroup(list, c, groups[c], left, before, done, round);
        GroupIds(list, c);
        forall i | 0 <= i < |list| ensures list[i].id in IdsOf(group) <==> list[i].consumer == c {
          IdInGroup(list, c, i);
        }
        left := left - {c};
        done := done + IdsOf(group);
      }
      forall id | id in IdsOf(list) ensures id in done {
        IdsOfMembers(list, id);
      }
      HandledIsIteration(before, repo.table, connected, now, round, standard);
    }

    /** The copies of consumers still to be served are the rows as they were read. */
    ghost predicate Unchanged(list: seq<RetryRecords.Repeat>, left: set<Text>, before: Table)
      reads list
    {
      forall i | 0 <= i < |list| && list[i].consumer in left ::
        list[i].id in before && list[i].Value() == before[list[i].id]
    }

    method DeliverGroup(list: seq<RetryRecords.Repeat>, c: Text, group: seq<RetryRecords.Repeat>,
                        ghost left: set<Text>, ghost before: Table, ghost done: set<int>, round: Round)
      requires repo.Valid() && DistinctIds(list) && c in left && group == OfConsumer(list, c)
      requires Handled(before, repo.table, done, round, standard)
      requires forall i | 0 <= i < |list| :: list[i].id in done <==> list[i].consumer !in left
      requires Unchanged(list, left, before)
      modifies repo`table, list
      ensures repo.Valid()
      ensures Handled(before, repo.table, done + IdsOf(group), round, standard)
      ensures Unchanged(list, left - {c}, before)
    {
      forall i | 0 <= i < |group|
        ensures group[i] in list && group[i].consumer == c
        ensures group[i].id in repo.table && group[i].Value() == repo.table[group[i].id]
      {
        OfConsumerMember(list, c, group[i]);
        assert Lookup(repo.table, group[i].id) == Lookup(before, group[i].id);
      }
      OfConsumerDistinct(list, c);
      forall id | id in IdsOf(group) ensures id !in done {
        IdsOfMembers(group, id);
      }
      ghost var middle := repo.table;
      RepeatProcessor(group, round);
      HandledCompose(before, middle, repo.table, done, IdsOf(group), round, standard);
      forall i | 0 <= i < |list| && list[i].consumer in left - {c}
        ensures list[i].id in before && list[i].Value() == before[list[i].id]
      {
        OfConsumerMember(list, c, list[i]);
      }
    }
  }

  // ---------------------------------------------------------------- an iteration as a run

  /** The steps of one repeater that delivers its copies in the given order. */
  function Deliver(c: Config, s: State, w: nat, order: seq<int>, round: Round): (s': State)
    requires w < |s.workers| && forall i | 0 <= i < |order| :: order[i] in s.workers[w]
    requires forall i, j | 0 <= i < j < |order| :: order[i] != order[j]
    ensures |s'.workers| == |s.workers|
    ensures s'.workers[w] == map id | id in s.workers[w] && id !in order :: s.workers[w][id]
  {
    if order == [] then
      assert s.workers[w] == map id | id in s.workers[w] && id !in order :: s.workers[w][id];
      s
    else
      var n := |order| - 1;
      var before := Deliver(c, s, w, order[..n], round);
      assert order == order[..n] + [order[n]];
      Processed(c, before, w, order[n], round.reply(order[n]), !round.lost(order[n]), round.clock(order[n]))
  }

  /**
   The steps of the table protocol, taken for one repeater's copies in any order, are one iteration.
   */
  lemma {:induction false} DeliveryIsIteration(c: Config, s: State, w: nat, order: seq<int>, round: Round)
    requires Keyed(s.table) && w < |s.workers| && CopiesCurrent(s.workers[w], s.table)
    requires forall i | 0 <= i < |order| :: order[i] in s.workers[w]
    requires forall i, j | 0 <= i < j < |order| :: order[i] != order[j]
    ensures Handled(s.table, Deliver(c, s, w, order, round).table, (set id | id in order), round, c.standard)
  {
    if order == [] {
      assert (set id | id in order) == {};
    } else {
      var n := |order| - 1;
      var init, id := order[..n], order[n];
      assert order == init + [id];
      DeliveryIsIteration(c, s, w, init, round);
      var before := Deliver(c, s, w, init, round);
      assert before.workers[w][id] == s.table[id];
      HandleOne(s.table, before.table, (set k | k in init), s.table[id], round, c.standard);
      assert (set k | k in order) == (set k | k in init) + {id};
    }
  }

  /**
   In whatever order one repeater's copies are delivered, grouped by consumer or not, the table left is
   the same, and it is the table that one iteration leaves.
   */
  lemma DeliveryOrderIsIrrelevant(c: Config, s: State, w: nat, order: seq<int>, other: seq<int>, round: Round, after: Table)
    requires Keyed(s.table) && w < |s.workers| && CopiesCurrent(s.workers[w], s.table)
    requires (forall i | 0 <= i < |order| :: order[i] in s.workers[w]) && forall i | 0 <= i < |other| :: other[i] in s.workers[w]
    requires forall i, j | 0 <= i < j < |order| :: order[i] != order[j]
    requires forall i, j | 0 <= i < j < |other| :: other[i] != other[j]
    requires (set id | id in order) == (set id | id in other)
    requires Handled(s.table, after, (set id | id in order), round, c.standard)
    ensures Deliver(c, s, w, order, round).table == Deliver(c, s, w, other, round).table == after
  {
    var done := set id | id in order;
    DeliveryIsIteration(c, s, w, order, round);
    DeliveryIsIteration(c, s, w, other, round);
    HandledIsUnique(s.table, Deliver(c, s, w, order, round).table, after, done, round, c.standard);
    HandledIsUnique(s.table, Deliver(c, s, w, other, round).table, after, done, round, c.standard);
  }
}

/**
 What happens to one batch between the bus and a client: the client SDK answers every message of the
 batch exactly once, in any order; the bus marks a message as done or stores it as a repeat, result by
 result. The two together leave no message of an accepted batch unhandled.
 */
module ConsumeHandler {
  import opened Wrappers
  import opened Backoff
  import RetryRecords
  import RetryTable
  import opened RetryStore
  import opened MessageIds
  import opened ConsumeStream

  // ----- The client SDK -----

  /** A handler error: an ordinary failure, or a request to deliver the message later (delay in nanoseconds). */
  datatype ProcessError = Failed(message: string) | RetryLater(message: string, delay: int)

  datatype ProcessResult = ProcessResult(id: string, err: Option<ProcessError>)

  const NANOSECONDS_IN_A_SECOND := 1_000_000_000
  const MAX_INT32 := 0x7fff_ffff

  /** The delay in whole seconds, rounded up and clipped to 32 bits. */
  function DurationSeconds(delay: int): (seconds: int)
    ensures delay <= 0 ==> seconds == 0
    ensures 0 < delay <= MAX_INT32 * NANOSECONDS_IN_A_SECOND ==>
              (seconds - 1) * NANOSECONDS_IN_A_SECOND < delay <= seconds * NANOSECONDS_IN_A_SECOND
    ensures delay > MAX_INT32 * NANOSECONDS_IN_A_SECOND ==> seconds == MAX_INT32
  {
    if delay <= 0 then 0
    else
      var seconds := (delay + NANOSECONDS_IN_A_SECOND - 1) / NANOSECONDS_IN_A_SECOND;
      if seconds > MAX_INT32 then MAX_INT32 else seconds
  }

  /** The result of one message says what its handler returned: ok exactly without an error, else what and how. */
  predicate Reports(r: Result, id: string, err: Option<ProcessError>) {
    && r.id == id
    && (r.ok <==> err.None?)
    && (r.retryLater <==> err.Some? && err.value.RetryLater?)
    && (err.Some? ==> r.message == err.value.message)
    && r.retryAfterSec == if err.Some? && err.value.RetryLater? then DurationSeconds(err.value.delay) else 0
  }

  /** order says, for each position of an answer, which message of the batch it is for. */
  ghost predicate IsPermutation(order: seq<nat>, n: nat) {
    && |order| == n
    && (forall j :: 0 <= j < n ==> order[j] < n)
    && (forall i :: 0 <= i < n ==> i in order)
    && (forall j, k :: 0 <= j < k < n ==> order[j] != order[k])
  }

  /** Handles the messages concurrently and collects the results as they come in. */
  method ProcessMessageList(list: seq<Message>, outcomes: seq<Option<ProcessError>>)
    returns (ret: seq<ProcessResult>, ghost order: seq<nat>)
    requires |outcomes| == |list|
    ensures IsPermutation(order, |list|) && |ret| == |list|
    ensures forall j :: 0 <= j < |ret| ==> ret[j] == ProcessResult(list[order[j]].id, outcomes[order[j]])
  {
    ret, order := [], [];
    var running := Indices(|list|);
    for received := 0 to |list|
      invariant |order| == |ret| == received && |running| == |list| - received
      invariant forall i :: i in running ==> 0 <= i < |list|
      invariant forall i :: 0 <= i < |list| ==> (i in order <==> i !in running)
      invariant forall j :: 0 <= j < received ==> order[j] < |list| && ret[j] == ProcessResult(list[order[j]].id, outcomes[order[j]])
      invariant forall j, k :: 0 <= j < k < received ==> order[j] != order[k]
    {
      assert running != {};
      var i: nat :| i in running;
      running := running - {i};
      ret := ret + [ProcessResult(list[i].id, outcomes[i])];
      order := order + [i];
    }
    assert running == {};
  }

  function Indices(n: nat): (s: set<nat>)
    ensures |s| == n && forall i :: i in s <==> 0 <= i < n
  {
    if n == 0 then {} else Indices(n - 1) + {n - 1}
  }

  method ToPBResultList(resultList: seq<ProcessResult>) returns (ret: seq<Result>)
    ensures |ret| == |resultList| && forall i :: 0 <= i < |ret| ==> Reports(ret[i], resultList[i].id, resultList[i].err)
    ensures forall i :: 0 <= i < |ret| ==> ret[i].id == resultList[i].id && (ret[i].ok <==> resultList[i].err == None)
  {
    ret := [];
    for i := 0 to |resultList|
      invariant |ret| == i && forall j :: 0 <= j < i ==> Reports(ret[j], resultList[j].id, resultList[j].err)
    {
      var v := resultList[i];
      if v.err.None? {
        ret := ret + [Result(v.id, true, false, 0, "")];
      } else {
        var result := Result(v.id, false, false, 0, v.err.value.message);
        if v.err.value.RetryLater? {
          result := result.(retryLater := true, retryAfterSec := DurationSeconds(v.err.value.delay));
        }
        ret := ret + [result];
      }
    }
  }

  /** Result j is for message order[j] of the batch and says what its handler returned. */
  ghost predicate AnswersInOrder(list: seq<Message>, outcomes: seq<Option<ProcessError>>, results: seq<Result>, order: seq<nat>) {
    && |outcomes| == |results| == |list| && IsPermutation(order, |list|)
    && forall j :: 0 <= j < |results| ==> Reports(results[j], list[order[j]].id, outcomes[order[j]])
  }

  /** The answer of the client SDK to a batch: one result per message, in the order they finished. */
  ghost predicate SdkAnswer(list: seq<Message>, outcomes: seq<Option<ProcessError>>, results: seq<Result>) {
    exists order :: AnswersInOrder(list, outcomes, results, order)
  }

  /** outcomes is what the client's handler returned for each message of the batch. */
  method AnswerBatch(list: seq<Message>, outcomes: seq<Option<ProcessError>>) returns (results: seq<Result>, ghost order: seq<nat>)
    requires |outcomes| == |list|
    ensures SdkAnswer(list, outcomes, results)
    ensures |results| == |list| && IsPermutation(order, |list|)
    ensures forall j :: 0 <= j < |results| ==>
              && results[j].id == list[order[j]].id
              && (results[j].ok <==> outcomes[order[j]] == None)
              && (results[j].retryLater <==> outcomes[order[j]].Some? && outcomes[order[j]].value.RetryLater?)
              && (outcomes[order[j]].Some? ==> results[j].message == outcomes[order[j]].value.message)
  {
    var ret;
    ret, order := ProcessMessageList(list, outcomes);
    results := ToPBResultList(ret);
    assert AnswersInOrder(list, outcomes, results, order);
  }

  /** Each message of the batch is named by exactly one result, which says what its handler returned. */
  lemma SdkAnswersEveryMessage(list: seq<Message>, outcomes: seq<Option<ProcessError>>, results: seq<Result>, i: nat)
    returns (j: nat)
    requires SdkAnswer(list, outcomes, results) && i < |list|
    ensures j < |results| && Reports(results[j], list[i].id, outcomes[i])
    ensures DistinctIds(list) ==> forall k :: 0 <= k < |results| && k != j ==> results[k].id != list[i].id
  {
    var order :| AnswersInOrder(list, outcomes, results, order);
    assert i in order;
    j :| 0 <= j < |order| && order[j] == i;
    if DistinctIds(list) {
      forall k | 0 <= k < |results| && k != j ensures results[k].id != list[i].id {
        assert Reports(results[k], list[order[k]].id, outcomes[order[k]]);
        assert order[k] != i;
      }
    }
  }

  /** Each result is for a message of the batch and says what its handler returned. */
  lemma ResultIsOf(list: seq<Message>, outcomes: seq<Option<ProcessError>>, results: seq<Result>, j: nat) returns (i: nat)
    requires SdkAnswer(list, outcomes, results) && j < |results|
    ensures |outcomes| == |list| && i < |list| && Reports(results[j], list[i].id, outcomes[i])
  {
    var order :| AnswersInOrder(list, outcomes, results, order);
    i := order[j];
  }

  // ----- The bus -----

  /** What the bus stores for a message the client did not finish. */
  datatype Repeat = Repeat(messageId: string, key: Option<seq<int>>, data: seq<int>, headers: map<string, string>,
                           error: string, deferred: bool, retryAfterSec: int)

  function ToRepeat(m: Message, r: Result): Repeat {
    Repeat(m.id, if m.key != [] then Some(m.key) else None, m.value, m.headers, r.message, r.retryLater,
           if r.retryAfterSec <= 0 then 0 else r.retryAfterSec)
  }

  datatype HandlerError = StreamFailed | StreamClosed | EnqueueFailed | Desynchronized

  /** The consumer on whose behalf the handler works. */
  datatype Subscriber = Subscriber(topic: RetryRecords.Text, group: RetryRecords.Text, consumer: RetryRecords.Text)

  /** The row of a repeat that was stored for the subscriber at clock `now`, column by column. */
  predicate IsRowOf(row: RetryRecords.Record, now: int, c: Subscriber, standard: Strategy, r: Repeat) {
    && row.topic == c.topic && row.group == c.group && row.consumer == c.consumer
    && row.message == RetryRecords.Text(r.messageId)
    && row.payload.key == r.key && row.payload.data == r.data && row.payload.headers == r.headers
    && row.error == RetryRecords.Text(r.error) && row.deferred == r.deferred && row.attempt == 0 && row.finishedAt == None
    && row.startedAt == now + if r.retryAfterSec > 0 then r.retryAfterSec
                              else Delay(if row.strategy.Some? then row.strategy.value else standard, 0)
  }

  /** The repeat was put into the retry table by some step. */
  ghost predicate Stored(actions: seq<RetryTable.Action>, c: Subscriber, standard: Strategy, r: Repeat) {
    exists k :: 0 <= k < |actions| && actions[k].Insert? && IsRowOf(actions[k].row, actions[k].now, c, standard, r)
  }

  ghost predicate AllStored(actions: seq<RetryTable.Action>, c: Subscriber, standard: Strategy, repeats: seq<Repeat>) {
    forall i :: 0 <= i < |repeats| ==> Stored(actions, c, standard, repeats[i])
  }

  lemma StillStored(actions: seq<RetryTable.Action>, later: seq<RetryTable.Action>, c: Subscriber, standard: Strategy, repeats: seq<Repeat>)
    requires AllStored(actions, c, standard, repeats) && actions <= later
    ensures AllStored(later, c, standard, repeats)
  {
    forall i | 0 <= i < |repeats| ensures Stored(later, c, standard, repeats[i]) {
      assert Stored(actions, c, standard, repeats[i]);
      var k :| 0 <= k < |actions| && actions[k].Insert? && IsRowOf(actions[k].row, actions[k].now, c, standard, repeats[i]);
      assert later[k] == actions[k];
    }
  }

  lemma OneMoreStored(actions: seq<RetryTable.Action>, later: seq<RetryTable.Action>, c: Subscriber, standard: Strategy,
                      repeats: seq<Repeat>, r: Repeat)
    requires AllStored(actions, c, standard, repeats) && |later| == |actions| + 1 && actions <= later && later[|actions|].Insert?
    requires IsRowOf(later[|actions|].row, later[|actions|].now, c, standard, r)
    ensures AllStored(later, c, standard, repeats + [r])
  {
    StillStored(actions, later, c, standard, repeats);
    assert Stored(later, c, standard, r);
  }

  /** The handled messages so far: the ids answered ok and the stored repeats, in order. */
  class Handler {
    const subscriber: Subscriber
    const retries: Retries
    var okIds: set<string>
    var repeats: seq<Repeat>

    /** Every repeat was put into the retry table for the subscriber. */
    ghost predicate Valid()
      reads this, retries
    {
      retries.Valid() && AllStored(retries.actions, subscriber, retries.config.standard, repeats)
    }

    constructor (subscriber: Subscriber, retries: Retries)
      requires retries.Valid()
      ensures this.subscriber == subscriber && this.retries == retries
      ensures Valid() && okIds == {} && repeats == []
    {
      this.subscriber, this.retries := subscriber, retries;
      okIds, repeats := {}, [];
    }

    /** Stores a repeat, or fails and stores nothing; the table may change in between. */
    method Add(r: Repeat) returns (ok: bool)
      requires Valid()
      modifies this`repeats, retries
      ensures Valid()
      ensures repeats == old(repeats) + if ok then [r] else []
    {
      retries.Others();
      StillStored(old(retries.actions), retries.actions, subscriber, retries.config.standard, repeats);
      var strategy: Option<Strategy> := *;
      ghost var before := retries.actions;
      var data := RetryTable.RepeatData(subscriber.topic, subscriber.group, subscriber.consumer, RetryRecords.Text(r.messageId),
                                        RetryRecords.Payload(r.key, r.data, r.headers), strategy);
      ok := retries.Add(data, RetryRecords.Text(r.error), r.deferred, r.retryAfterSec);
      if ok {
        OneMoreStored(before, retries.actions, subscriber, retries.config.standard, repeats, r);
        repeats := repeats + [r];
      }
    }

    /**
     Applies the results of an accepted answer in order; a result for another message is skipped, and a
     repeat that cannot be stored stops the handler. An answer is accepted exactly when it names a
     message of the batch or the batch is empty, unless a repeat it asks for cannot be stored; then
     exactly the messages that some result names are handled. applied counts the results that took effect.
     */
    method Handle(list: seq<Message>, outcome: Outcome) returns (err: Option<HandlerError>, ghost applied: nat)
      requires Valid() && DistinctIds(list)
      modifies this, retries
      ensures Valid()
      ensures outcome.StreamError? <==> err == Some(StreamFailed)
      ensures outcome.Closed? <==> err == Some(StreamClosed)
      ensures !outcome.Accepted? ==> okIds == old(okIds) && repeats == old(repeats)
      ensures outcome.Accepted? ==>
                && applied <= |outcome.result.resultList|
                && Applied(old(okIds), old(repeats), okIds, repeats, list, outcome.result.resultList[..applied])
                && HandledAs(old(okIds), old(repeats), okIds, repeats, list, outcome.result.resultList[..applied])
      ensures outcome.Accepted? && err != Some(EnqueueFailed) ==>
                && err == (if Accepts(list, outcome.result.resultList) then None else Some(Desynchronized))
                && applied == |outcome.result.resultList|
                && okIds == old(okIds) + OkIds(list, outcome.result.resultList)
                && repeats == old(repeats) + Repeats(list, outcome.result.resultList)
      ensures err == Some(EnqueueFailed) ==>
                && outcome.Accepted? && applied < |outcome.result.resultList|
                && !outcome.result.resultList[applied].ok && Find(list, outcome.result.resultList[applied].id).Some?
                && Repeats(list, outcome.result.resultList) != []
      ensures okIds >= old(okIds) && old(repeats) <= repeats
    {
      if outcome.StreamError? {
        return Some(StreamFailed), 0;
      }
      if outcome.Closed? {
        return Some(StreamClosed), 0;
      }
      var matched, stored;
      matched, stored, applied := ApplyResults(list, outcome.result.resultList);
      MatchesNamed(list, outcome.result.resultList);
      assert outcome.result.resultList[..|outcome.result.resultList|] == outcome.result.resultList;
      AppliedIsHandledAs(old(okIds), old(repeats), list, outcome.result.resultList[..applied]);
      if !stored {
        return Some(EnqueueFailed), applied;
      }
      if !matched && |list| > 0 {
        return Some(Desynchronized), applied;
      }
      return None, applied;
    }

    method ApplyResult(m: Message, result: Result) returns (stored: bool)
      requires Valid() && result.id == m.id
      modifies this, retries
      ensures Valid()
      ensures stored ==> okIds == old(okIds) + (if result.ok then {result.id} else {})
      ensures stored ==> repeats == old(repeats) + (if result.ok then [] else [ToRepeat(m, result)])
      ensures !stored ==> !result.ok && okIds == old(okIds) && repeats == old(repeats)
    {
      stored := true;
      if result.ok {
        okIds := okIds + {result.id};
      } else {
        stored := Add(ToRepeat(m, result));
      }
    }

    /**
     The results one by one; stored is false when a repeat could not be stored. applied counts the
     results that took effect: all of them, or those before the one whose repeat was refused.
     */
    method ApplyResults(list: seq<Message>, results: seq<Result>) returns (matched: bool, stored: bool, ghost applied: nat)
      requires Valid() && DistinctIds(list)
      modifies this, retries
      ensures Valid()
      ensures applied <= |results| && Applied(old(okIds), old(repeats), okIds, repeats, list, results[..applied])
      ensures stored ==> applied == |results|
      ensures !stored ==> applied < |results| && !results[applied].ok && Find(list, results[applied].id).Some?
      ensures !stored ==> matched && Repeats(list, results) != []
      ensures stored ==> (matched <==> Matches(list, results) != 0)
    {
      var byID := BatchIndex(list);
      var matchedCount := 0;
      ghost var ok0, repeats0 := okIds, repeats;
      assert results[..0] == [];
      for i := 0 to |results|
        invariant Valid() && Applied(ok0, repeats0, okIds, repeats, list, results[..i])
        invariant matchedCount == Matches(list, results[..i])
      {
        var result := results[i];
        AppliedNext(ok0, repeats0, okIds, repeats, list, results, i);
        if result.id !in byID {
          continue;
        }
        matchedCount := matchedCount + 1;
        var done := ApplyResult(byID[result.id], result);
        if !done {
          RepeatsGrow(list, results, i);
          return true, false, i;
        }
      }
      assert results[..|results|] == results;
      return matchedCount != 0, true, |results|;
    }
  }

  /** Whether the handler takes an answer for the batch: some result is for it, or the batch is empty. */
  ghost predicate Accepts(list: seq<Message>, results: seq<Result>) {
    list == [] || AnyNamed(list, results)
  }

  /** A result for the batch that is not ok asks for a repeat. */
  lemma {:induction false} RepeatsGrow(list: seq<Message>, results: seq<Result>, i: nat)
    requires i < |results| && !results[i].ok && Find(list, results[i].id).Some?
    ensures Repeats(list, results) != []
  {
    if i < |results| - 1 {
      RepeatsGrow(list, results[..|results| - 1], i);
    }
  }

  /** The handler's state after applying results to the state ok0, repeats0. */
  ghost predicate Applied(ok0: set<string>, repeats0: seq<Repeat>, okIds: set<string>, repeats: seq<Repeat>,
                          list: seq<Message>, results: seq<Result>) {
    okIds == ok0 + OkIds(list, results) && repeats == repeats0 + Repeats(list, results)
  }

  lemma AppliedNext(ok0: set<string>, repeats0: seq<Repeat>, okIds: set<string>, repeats: seq<Repeat>,
                    list: seq<Message>, results: seq<Result>, i: nat)
    requires i < |results| && Applied(ok0, repeats0, okIds, repeats, list, results[..i])
    ensures var r, m := results[i], Find(list, results[i].id);
            && Matches(list, results[..i + 1]) == Matches(list, results[..i]) + (if m.Some? then 1 else 0)
            && Applied(ok0, repeats0,
                       okIds + (if r.ok && m.Some? then {r.id} else {}),
                       repeats + (if m.Some? && !r.ok then [ToRepeat(m.value, r)] else []),
                       list, results[..i + 1])
  {
    NextResult(list, results, i);
    assert results[..i + 1][..i] == results[..i];
  }

  method BatchIndex(list: seq<Message>) returns (byID: map<string, Message>)
    requires DistinctIds(list)
    ensures forall id :: id in byID <==> Find(list, id).Some?
    ensures forall id :: id in byID ==> Find(list, id) == Some(byID[id])
  {
    byID := IndexByID(list);
    IndexIsFind(list, byID);
  }

  ghost predicate AnyNamed(list: seq<Message>, results: seq<Result>) {
    exists i :: 0 <= i < |list| && Named(results, list[i].id)
  }

  /** The number of results that name a message of the batch. */
  function Matches(list: seq<Message>, results: seq<Result>): nat {
    if results == [] then 0
    else Matches(list, results[..|results| - 1]) + if Find(list, results[|results| - 1].id).Some? then 1 else 0
  }

  lemma {:induction false} MatchesNamed(list: seq<Message>, results: seq<Result>)
    ensures Matches(list, results) != 0 <==> AnyNamed(list, results)
  {
    if results != [] {
      var n := |results| - 1;
      MatchesNamed(list, results[..n]);
      assert results[..n + 1] == results;
      NextResult(list, results, n);
      var m := Find(list, results[n].id);
      if m.Some? {
        var k :| 0 <= k < |list| && list[k] == m.value;
        assert Named(results, list[k].id);
      }
    }
  }

  /** A message is handled once it was answered ok or is stored, with its content, as a repeat. */
  ghost predicate Handled(okIds: set<string>, repeats: seq<Repeat>, m: Message) {
    m.id in okIds || exists i :: 0 <= i < |repeats| && StoresMessage(repeats[i], m)
  }

  /** The repeat that a result, which is not ok, asks for its message: its content, and what the result says. */
  predicate StoresResult(r: Repeat, m: Message, result: Result) {
    && r.messageId == m.id && r.data == m.value && r.headers == m.headers && r.key == (if m.key != [] then Some(m.key) else None)
    && r.error == result.message && r.deferred == result.retryLater
    && r.retryAfterSec == if result.retryAfterSec > 0 then result.retryAfterSec else 0
  }

  ghost predicate IsOkFor(list: seq<Message>, results: seq<Result>, id: string) {
    exists i, j :: 0 <= i < |list| && 0 <= j < |results| && list[i].id == id && results[j].id == id && results[j].ok
  }

  predicate AsksFor(m: Message, result: Result, r: Repeat) {
    result.id == m.id && !result.ok && StoresResult(r, m, result)
  }

  ghost predicate IsAskedFor(list: seq<Message>, results: seq<Result>, r: Repeat) {
    exists i, j :: 0 <= i < |list| && 0 <= j < |results| && AsksFor(list[i], results[j], r)
  }

  /** A result that is not ok, for a message of the batch, has its repeat. */
  ghost predicate IsGranted(m: Message, result: Result, repeats: seq<Repeat>) {
    result.id == m.id && !result.ok ==> exists k :: 0 <= k < |repeats| && StoresResult(repeats[k], m, result)
  }

  ghost predicate AllGranted(list: seq<Message>, results: seq<Result>, repeats: seq<Repeat>) {
    forall i, j :: 0 <= i < |list| && 0 <= j < |results| ==> IsGranted(list[i], results[j], repeats)
  }

  /** The new ok ids are those a result says ok for, the new repeats are those the results that are not ok ask for. */
  ghost predicate HandledAs(ok0: set<string>, repeats0: seq<Repeat>, okIds: set<string>, repeats: seq<Repeat>,
                            list: seq<Message>, results: seq<Result>) {
    && (forall id :: id in okIds <==> id in ok0 || IsOkFor(list, results, id))
    && repeats0 <= repeats
    && (forall k :: |repeats0| <= k < |repeats| ==> IsAskedFor(list, results, repeats[k]))
    && AllGranted(list, results, repeats[|repeats0|..])
  }

  lemma {:induction false} OkIdsAre(list: seq<Message>, results: seq<Result>, id: string)
    ensures id in OkIds(list, results) <==> IsOkFor(list, results, id)
  {
    if results != [] {
      var n := |results| - 1;
      var init := results[..n];
      OkIdsAre(list, init, id);
      if IsOkFor(list, init, id) {
        var i, j :| 0 <= i < |list| && 0 <= j < |init| && list[i].id == id && init[j].id == id && init[j].ok;
        assert results[j] == init[j];
      }
      if IsOkFor(list, results, id) {
        var i, j :| 0 <= i < |list| && 0 <= j < |results| && list[i].id == id && results[j].id == id && results[j].ok;
        assert j < n ==> results[j] == init[j];
      }
      if results[n].ok && results[n].id == id && Find(list, id).Some? {
        var i :| 0 <= i < |list| && list[i] == Find(list, id).value;
        assert IsOkFor(list, results, id);
      }
    }
  }

  lemma {:induction false} RepeatsAreAskedFor(list: seq<Message>, results: seq<Result>, k: nat)
    requires k < |Repeats(list, results)|
    ensures IsAskedFor(list, results, Repeats(list, results)[k])
  {
    var n := |results| - 1;
    var init := results[..n];
    if k < |Repeats(list, init)| {
      RepeatsAreAskedFor(list, init, k);
      var i, j :| 0 <= i < |list| && 0 <= j < |init| && AsksFor(list[i], init[j], Repeats(list, init)[k]);
      assert results[j] == init[j];
    } else {
      var m := Find(list, results[n].id).value;
      var i :| 0 <= i < |list| && list[i] == m;
      assert AsksFor(list[i], results[n], Repeats(list, results)[k]);
    }
  }

  lemma {:induction false} RepeatIsGranted(list: seq<Message>, results: seq<Result>, i: nat, j: nat)
    requires DistinctIds(list) && i < |list| && j < |results|
    ensures IsGranted(list[i], results[j], Repeats(list, results))
  {
    var n := |results| - 1;
    var init := results[..n];
    var before, after := Repeats(list, init), Repeats(list, results);
    if results[j].id == list[i].id && !results[j].ok {
      if j < n {
        RepeatIsGranted(list, init, i, j);
        var k :| 0 <= k < |before| && StoresResult(before[k], list[i], init[j]);
        assert after[k] == before[k];
      } else {
        var m := Find(list, results[n].id).value;
        var l :| 0 <= l < |list| && list[l] == m;
        assert l == i;
        assert StoresResult(after[|before|], list[i], results[j]);
      }
    }
  }

  lemma AppliedIsHandledAs(ok0: set<string>, repeats0: seq<Repeat>, list: seq<Message>, results: seq<Result>)
    requires DistinctIds(list)
    ensures HandledAs(ok0, repeats0, ok0 + OkIds(list, results), repeats0 + Repeats(list, results), list, results)
  {
    var repeats := repeats0 + Repeats(list, results);
    forall id ensures id in ok0 + OkIds(list, results) <==> id in ok0 || IsOkFor(list, results, id) {
      OkIdsAre(list, results, id);
    }
    forall k | |repeats0| <= k < |repeats| ensures IsAskedFor(list, results, repeats[k]) {
      RepeatsAreAskedFor(list, results, k - |repeats0|);
    }
    assert repeats[|repeats0|..] == Repeats(list, results);
    forall i, j | 0 <= i < |list| && 0 <= j < |results| ensures IsGranted(list[i], results[j], Repeats(list, results)) {
      RepeatIsGranted(list, results, i, j);
    }
  }

  ghost predicate StoresMessage(r: Repeat, m: Message) {
    && r.messageId == m.id && r.data == m.value && r.headers == m.headers
    && r.key == if m.key != [] then Some(m.key) else None
  }

  ghost predicate Named(results: seq<Result>, id: string) {
    exists j :: 0 <= j < |results| && results[j].id == id
  }

  function Find(list: seq<Message>, id: string): (r: Option<Message>)
    ensures r.Some? ==> r.value in list && r.value.id == id
    ensures r.None? ==> forall i :: 0 <= i < |list| ==> list[i].id != id
  {
    if list == [] then None
    else if list[0].id == id then Some(list[0])
    else
      var r := Find(list[1..], id);
      assert r.None? ==> forall i :: 0 < i < |list| ==> list[i] == list[1..][i - 1];
      r
  }

  /** The ids of the batch that are answered ok. */
  function OkIds(list: seq<Message>, results: seq<Result>): set<string> {
    if results == [] then {}
    else
      var last := results[|results| - 1];
      OkIds(list, results[..|results| - 1]) + if last.ok && Find(list, last.id).Some? then {last.id} else {}
  }

  /** The repeats of the messages of the batch that are not answered ok, in answer order. */
  function Repeats(list: seq<Message>, results: seq<Result>): seq<Repeat> {
    if results == [] then []
    else
      var last := results[|results| - 1];
      var m := Find(list, last.id);
      Repeats(list, results[..|results| - 1]) + if m.Some? && !last.ok then [ToRepeat(m.value, last)] else []
  }

  lemma IndexIsFind(list: seq<Message>, index: map<string, Message>)
    requires DistinctIds(list) && Indexed(list, |list|, index)
    ensures forall id :: id in index <==> Find(list, id).Some?
    ensures forall id :: id in index ==> Find(list, id) == Some(index[id])
  {
    forall id
      ensures id in index <==> Find(list, id).Some?
      ensures id in index ==> Find(list, id) == Some(index[id])
    {
      if id in index {
        assert HasId(list, |list|, id);
        var i :| 0 <= i < |list| && list[i].id == id;
        assert IsLatest(list, |list|, i) && IsEntry(index, list[i]);
        var m := Find(list, id).value;
        var k :| 0 <= k < |list| && list[k] == m;
        assert k == i;
      } else {
        assert !HasId(list, |list|, id);
      }
    }
  }

  lemma NextResult(list: seq<Message>, results: seq<Result>, i: nat)
    requires i < |results|
    ensures var r := results[i];
            && OkIds(list, results[..i + 1]) == OkIds(list, results[..i]) + (if r.ok && Find(list, r.id).Some? then {r.id} else {})
            && Repeats(list, results[..i + 1])
               == Repeats(list, results[..i]) + (if Find(list, r.id).Some? && !r.ok then [ToRepeat(Find(list, r.id).value, r)] else [])
    ensures forall id :: Named(results[..i + 1], id) <==> Named(results[..i], id) || id == results[i].id
  {
    var before, after := results[..i], results[..i + 1];
    assert after[..i] == before && after[i] == results[i];
    assert after == before + [results[i]];
    forall id ensures Named(after, id) <==> Named(before, id) || id == results[i].id {
      if j :| 0 <= j < |before| && before[j].id == id {
        assert after[j].id == id;
      }
      assert after[i].id == results[i].id;
    }
  }

  lemma {:induction false} NamedIsHandled(list: seq<Message>, results: seq<Result>, m: Message)
    requires DistinctIds(list) && m in list && Named(results, m.id)
    ensures Handled(OkIds(list, results), Repeats(list, results), m)
  {
    var n := |results| - 1;
    assert results[..n + 1] == results;
    NextResult(list, results, n);
    if results[n].id == m.id {
      var found := Find(list, m.id).value;
      var i :| 0 <= i < |list| && list[i] == m;
      var k :| 0 <= k < |list| && list[k] == found;
      assert k == i;
      if !results[n].ok {
        assert StoresMessage(Repeats(list, results)[|Repeats(list, results)| - 1], m);
      }
    } else {
      NamedIsHandled(list, results[..n], m);
      if i :| 0 <= i < |Repeats(list, results[..n])| && StoresMessage(Repeats(list, results[..n])[i], m) {
        assert StoresMessage(Repeats(list, results)[i], m);
      }
    }
  }

  lemma UnnamedIsUntouched(list: seq<Message>, results: seq<Result>, id: string)
    requires !Named(results, id)
    ensures id !in OkIds(list, results)
    ensures forall i :: 0 <= i < |Repeats(list, results)| ==> Repeats(list, results)[i].messageId != id
  {
    if results != [] {
      var n := |results| - 1;
      assert results[..n + 1] == results;
      NextResult(list, results, n);
      UnnamedIsUntouched(list, results[..n], id);
    }
  }

  /**
   Exactly the messages that a result names are handled by the results of a batch. The handler accepts
   an answer that leaves some out, so a batch is handled as a whole if and only if the client names
   every message of it.
   */
  lemma HandledIffNamed(list: seq<Message>, results: seq<Result>)
    requires DistinctIds(list)
    ensures (forall m :: m in list ==> Handled(OkIds(list, results), Repeats(list, results), m))
            <==> (forall m :: m in list ==> Named(results, m.id))
  {
    forall m | m in list
      ensures Handled(OkIds(list, results), Repeats(list, results), m) <==> Named(results, m.id)
    {
      if Named(results, m.id) {
        NamedIsHandled(list, results, m);
      } else {
        UnnamedIsUntouched(list, results, m.id);
      }
    }
  }

  /** The repeat of a message whose handler returned an error. */
  predicate StoresFailure(r: Repeat, m: Message, e: ProcessError) {
    && r.messageId == m.id && r.data == m.value && r.headers == m.headers && r.key == (if m.key != [] then Some(m.key) else None)
    && r.error == e.message && r.deferred == e.RetryLater?
    && r.retryAfterSec == if e.RetryLater? then DurationSeconds(e.delay) else 0
  }

  lemma FailureIsStored(r: Repeat, m: Message, result: Result, err: Option<ProcessError>)
    requires AsksFor(m, result, r) && Reports(result, m.id, err)
    ensures err.Some? && StoresFailure(r, m, err.value)
  {
  }

  /**
   The bus and a client built on the SDK together: a message of the batch is done exactly if the client's
   handler returned no error for it, and otherwise stored with that error.
   */
  lemma SdkBatchIsHandled(list: seq<Message>, outcomes: seq<Option<ProcessError>>, results: seq<Result>, i: nat)
    requires DistinctIds(list) && SdkAnswer(list, outcomes, results) && i < |list|
    ensures outcomes[i] == None <==> list[i].id in OkIds(list, results)
    ensures outcomes[i].Some? ==>
              exists k :: 0 <= k < |Repeats(list, results)| && StoresFailure(Repeats(list, results)[k], list[i], outcomes[i].value)
  {
    var j := SdkAnswersEveryMessage(list, outcomes, results, i);
    OkIdsAre(list, results, list[i].id);
    assert outcomes[i] == None ==> IsOkFor(list, results, list[i].id);
    if outcomes[i].Some? {
      RepeatIsGranted(list, results, i, j);
      var k :| 0 <= k < |Repeats(list, results)| && StoresResult(Repeats(list, results)[k], list[i], results[j]);
      FailureIsStored(Repeats(list, results)[k], list[i], results[j], outcomes[i]);
    }
  }

  lemma SdkAnswerIsAccepted(list: seq<Message>, outcomes: seq<Option<ProcessError>>, results: seq<Result>)
    requires SdkAnswer(list, outcomes, results)
    ensures Accepts(list, results)
  {
    if list != [] {
      var j := SdkAnswersEveryMessage(list, outcomes, results, 0);
      assert Named(results, list[0].id);
    }
  }

  lemma UnnamedStaysUnhandled(list: seq<Message>, results: seq<Result>, m: Message, okIds: set<string>, repeats: seq<Repeat>,
                              okIds': set<string>, repeats': seq<Repeat>, applied: nat)
    requires applied <= |results| && Applied(okIds, repeats, okIds', repeats', list, results[..applied])
    requires !Named(results, m.id) && !Handled(okIds, repeats, m)
    ensures !Handled(okIds', repeats', m)
  {
    assert !Named(results[..applied], m.id) by {
      assert forall j :: 0 <= j < applied ==> results[..applied][j] == results[j];
    }
    UnnamedIsUntouched(list, results[..applied], m.id);
    forall i | 0 <= i < |repeats'| ensures !StoresMessage(repeats'[i], m) {
      assert i < |repeats| ==> repeats'[i] == repeats[i];
    }
  }

  /**
   An answer that names some message of the batch is not refused for those it leaves out, whatever else
   it asks for, and every message it leaves out stays unhandled.
   */
  method AcceptPartial(handler: Handler, list: seq<Message>, result: BatchResult, ghost m: Message) returns (err: Option<HandlerError>)
    requires handler.Valid() && DistinctIds(list) && Accepts(list, result.resultList)
    requires m in list && !Named(result.resultList, m.id)
    modifies handler, handler.retries
    ensures handler.Valid()
    ensures err == None || (err == Some(EnqueueFailed) && Repeats(list, result.resultList) != [])
    ensures !Handled(old(handler.okIds), old(handler.repeats), m) ==> !Handled(handler.okIds, handler.repeats, m)
  {
    ghost var okIds, repeats, applied := handler.okIds, handler.repeats, 0;
    err, applied := handler.Handle(list, Accepted(result));
    if !Handled(okIds, repeats, m) {
      UnnamedStaysUnhandled(list, result.resultList, m, okIds, repeats, handler.okIds, handler.repeats, applied);
    }
  }

  const TWO_MESSAGES := [Message("0/1", [], [1], map[]), Message("0/2", [], [2], map[])]
  const FIRST_ONLY := [Result("0/1", true, false, 0, "")]

  /** Such an answer: it names the first of two messages, so it is accepted, and the second is neither done nor stored. */
  lemma OmittedMessageIsDropped()
    ensures DistinctIds(TWO_MESSAGES) && Accepts(TWO_MESSAGES, FIRST_ONLY) && Repeats(TWO_MESSAGES, FIRST_ONLY) == []
    ensures !Named(FIRST_ONLY, TWO_MESSAGES[1].id)
    ensures !Handled(OkIds(TWO_MESSAGES, FIRST_ONLY), Repeats(TWO_MESSAGES, FIRST_ONLY), TWO_MESSAGES[1])
  {
    assert FIRST_ONLY[0].id == TWO_MESSAGES[0].id == "0/1";
    assert TWO_MESSAGES[0].id[2] != TWO_MESSAGES[1].id[2];
    assert FIRST_ONLY[..0] == [];
    assert Named(FIRST_ONLY, TWO_MESSAGES[0].id);
    assert Find(TWO_MESSAGES, "0/1").Some?;
  }

  method OmittingAnswerIsAccepted(config: RetryTable.Config) returns (handler: Handler, err: Option<HandlerError>)
    ensures fresh(handler) && err == None && !Handled(handler.okIds, handler.repeats, TWO_MESSAGES[1])
  {
    var retries := new Retries(config, 1);
    handler := new Handler(Subscriber(RetryTable.NO_TEXT, RetryTable.NO_TEXT, RetryTable.NO_TEXT), retries);
    OmittedMessageIsDropped();
    err := AcceptPartial(handler, TWO_MESSAGES, BatchResult("", FIRST_ONLY), TWO_MESSAGES[1]);
  }
}

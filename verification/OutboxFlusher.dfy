/**
 The flush pass of the outbox: one transaction per step (fetch the head of the queue outside the
 failed topics, publish each topic's rows with one request, delete what was published, commit),
 repeated until nothing outside the failed topics is left or a step fails.

 Everything the pass does not control is nondeterministic: whether a publish is confirmed, which of
 the requested rows a delete really affects, whether a commit that reports an error took effect,
 cancellation, and how many of the finitely many rows still to be inserted become visible before a
 fetch.
 */
module OutboxFlusher {
  import opened Wrappers
  import opened OutboxRows
  import opened OutboxSteps

  datatype FlushError =
    | Cancelled
    | BeginFailed
    | FetchFailed
    | DeleteFailed
    | CountMismatch(deleted: nat, expected: nat)
    | CommitFailed

  /** The outbox table with the rows still to be inserted, and the deletes of the open transaction. */
  class Store {
    var rows: seq<Row>
    var arriving: seq<Row>
    var pending: set<int>

    ghost function Contents(): Queue
      reads this
    {
      Queue(rows, arriving)
    }

    constructor (rows: seq<Row>, arriving: seq<Row>)
      ensures Contents() == Queue(rows, arriving)
    {
      this.rows, this.arriving, pending := rows, arriving, {};
    }

    method Begin() returns (ok: bool)
      modifies this
      ensures Contents() == old(Contents()) && pending == {}
    {
      ok := *;
      pending := {};
    }

    /** Sees the inserts committed so far and selects the head of the queue; a negative limit is an SQL error. */
    method Fetch(limit: int, failed: seq<Topic>) returns (selected: Option<seq<Row>>, ghost k: nat)
      requires Contents().Valid()
      modifies this
      ensures k <= |old(arriving)|
      ensures Merges(old(rows), old(arriving)[..k], rows) && arriving == old(arriving)[k..] && pending == old(pending)
      ensures selected.Some? ==> limit >= 0 && selected.value == Selection(rows, SetOf(failed), limit)
    {
      var visible: nat :| visible <= |arriving|;
      k := visible;
      rows := Arrive(rows, arriving, visible);
      arriving := arriving[visible..];
      var broken: bool := *;
      if broken || limit < 0 {
        selected := None;
      } else {
        selected := Some(Selection(rows, SetOf(failed), limit));
      }
    }

    /** Deletes some of the requested rows inside the transaction and reports how many it affected. */
    method Delete(ids: seq<int>) returns (deleted: Option<nat>)
      modifies this
      ensures Contents() == old(Contents())
      ensures forall id :: id in pending ==> id in ids
      ensures deleted.Some? ==> deleted.value == |pending|
    {
      var requested := set id: int | id in ids;
      var affected: set<int> :| affected <= requested;
      assert forall id :: id in affected ==> id in requested;
      pending := affected;
      var broken: bool := *;
      deleted := if broken then None else Some(|affected|);
    }

    /** Reports success only if the deletes took effect; a reported failure leaves that open. */
    method Commit() returns (ok: bool, ghost applied: bool)
      modifies this
      ensures ok ==> applied
      ensures pending == {} && arriving == old(arriving)
      ensures rows == if applied then Without(old(rows), old(pending)) else old(rows)
    {
      ok := *;
      var took: bool := *;
      applied := ok || took;
      if ok || took {
        rows := Without(rows, pending);
      }
      pending := {};
    }

    method Rollback()
      modifies this
      ensures Contents() == old(Contents()) && pending == {}
    {
      pending := {};
    }
  }

  /** Drains the store into the bus; origin and done are the history its invariant speaks about. */
  class Flusher {
    const batchSize: int
    const store: Store
    ghost var origin: seq<Row>
    ghost var done: seq<Row>
    /** The requests the bus confirmed. */
    ghost var confirmed: seq<Request>

    /**
     Every row of the start is durably published or still queued, once: nothing is lost or repeated. Of
     each topic whose rows become visible in id order, what was durably published so far followed by
     what is still queued is the topic's queue as it was at the start. Every durably published row was
     carried, with its stored bytes and options, by a confirmed request for its topic.
     */
    ghost predicate Valid()
      reads this, store
    {
      && store.Contents().Valid()
      && UniqueIds(origin)
      && multiset(done + store.Contents().All()) == multiset(origin)
      && (forall r :: r in done ==> IsSent(confirmed, r))
      && forall t :: Ascending(RowsOf(origin, t)) ==> Splits(origin, done, store.Contents().All(), t)
    }

    constructor (store: Store, batchSize: int)
      requires store.Contents().Valid()
      ensures Valid() && this.store == store && this.batchSize == batchSize
      ensures done == [] && origin == store.Contents().All()
    {
      this.store, this.batchSize := store, batchSize;
      origin, done, confirmed := store.Contents().All(), [], [];
    }

    /** Sends the rows of one topic with one request. */
    method PublishGroup(g: Group) returns (ids: seq<int>, ghost attempt: Attempt, ok: bool)
      ensures attempt.group == g && attempt.ok == ok && IsRequestOf(attempt.request, g)
      ensures attempt.request.topic == g.topic && |attempt.request.messages| == |g.rows|
      ensures forall i :: 0 <= i < |g.rows| ==>
                var m, r := attempt.request.messages[i], g.rows[i];
                && m.message == r.message
                && m.key == (if r.options.key.Some? then r.options.key.value else "")
                && m.idempotencyKey == (if r.options.idempotencyKey.Some? then r.options.idempotencyKey.value else "")
                && m.timestamp == (if r.options.timestamp.Some? then r.options.timestamp.value else "")
                && (r.options.version.Some? && r.options.version.value != 0 ==> m.version == r.options.version.value)
                && (r.options.version.None? ==> m.version == r.id)
      ensures ids == if ok then IdsOf(g.rows) else []
    {
      var messages: seq<BatchMessage> := [];
      ids := [];
      for i := 0 to |g.rows|
        invariant |messages| == |ids| == i
        invariant forall j :: 0 <= j < i ==> CarriesRow(messages[j], g.rows[j]) && GoVersion(messages[j], g.rows[j]) && ids[j] == g.rows[j].id
      {
        var r := g.rows[i];
        var version := if r.options.version.Some? then r.options.version.value else 0;
        if version == 0 {
          version := r.id;
        }
        messages := messages + [BatchMessage(OrEmpty(r.options.key), r.message, OrEmpty(r.options.idempotencyKey),
                                             OrEmpty(r.options.timestamp), version)];
        ids := ids + [r.id];
      }
      ok := *;
      attempt := Attempt(g, Request(g.topic, messages), ok);
      if !ok {
        ids := [];
      }
    }

    /** Publishes every group of a selection and collects the ids of the confirmed ones. */
    method PublishGroups(groups: seq<Group>) returns (published: seq<int>, failures: seq<Topic>, ghost attempts: seq<Attempt>)
      ensures GroupsOf(attempts) == groups
      ensures forall i :: 0 <= i < |attempts| ==> IsRequestOf(attempts[i].request, attempts[i].group)
      ensures failures == FailedTopics(attempts)
      ensures |published| == |OkRows(attempts)|
      ensures forall id :: id in published <==> id in Ids(OkRows(attempts))
    {
      published, failures, attempts := [], [], [];
      for i := 0 to |groups|
        invariant |attempts| == i && forall j :: 0 <= j < i ==> attempts[j].group == groups[j] && IsRequestOf(attempts[j].request, groups[j])
        invariant failures == FailedTopics(attempts)
        invariant published == IdsOf(OkRows(attempts))
      {
        var ids, attempt, ok := PublishGroup(groups[i]);
        OneMoreAttempt(attempts, attempt);
        attempts := attempts + [attempt];
        if ok {
          published := published + ids;
        } else {
          failures := failures + [groups[i].topic];
        }
      }
      IdsOfMembers(OkRows(attempts));
    }

    /** One step, with its effect on the history. */
    method FlushBatch(failed: seq<Topic>)
      returns (failures: seq<Topic>, n: nat, err: Option<FlushError>, ghost visible: seq<Row>, ghost attempts: seq<Attempt>, ghost applied: bool)
      requires Valid()
      modifies this, store
      ensures Valid() && origin == old(origin)
      ensures Step(old(store.Contents()), store.Contents(), visible, batchSize, SetOf(failed), attempts, applied)
      ensures failures == FailedTopics(attempts)
      ensures done == old(done) + if applied then OkRows(attempts) else []
      ensures confirmed == old(confirmed) + OkRequests(attempts)
      ensures err.None? ==> applied && n == |OkRows(attempts)|
      ensures err.None? && attempts == [] ==> batchSize >= 0 && Selection(store.rows, SetOf(failed), batchSize) == []
    {
      ghost var q := store.Contents();
      failures, n, err, visible, attempts, applied := RunTransaction(failed);
      Record(q, visible, SetOf(failed), attempts, applied);
    }

    /** Adds to the history what a transaction did to the queue. */
    ghost method Record(q: Queue, visible: seq<Row>, failed: set<Topic>, attempts: seq<Attempt>, applied: bool)
      requires q.Valid() && Step(q, store.Contents(), visible, batchSize, failed, attempts, applied) && UniqueIds(origin)
      requires multiset(done + q.All()) == multiset(origin) && forall r :: r in done ==> IsSent(confirmed, r)
      requires forall t :: Ascending(RowsOf(origin, t)) ==> Splits(origin, done, q.All(), t)
      modifies this`done, this`confirmed
      ensures Valid()
      ensures done == old(done) + if applied then OkRows(attempts) else []
      ensures confirmed == old(confirmed) + OkRequests(attempts)
    {
      var moved := if applied then OkRows(attempts) else [];
      StepKeepsRows(q, store.Contents(), visible, batchSize, failed, attempts, applied);
      MovedFurther(origin, done, q.All(), store.Contents().All(), moved);
      OrderGoesOn(origin, done, q, store.Contents(), visible, batchSize, failed, attempts, applied);
      MovedIsSent(visible, store.rows, batchSize, failed, attempts, applied, done, confirmed);
      done, confirmed := done + moved, confirmed + OkRequests(attempts);
    }

    /** One transaction. A failure before the commit deletes nothing. */
    method RunTransaction(failed: seq<Topic>)
      returns (failures: seq<Topic>, n: nat, err: Option<FlushError>, ghost visible: seq<Row>, ghost attempts: seq<Attempt>, ghost applied: bool)
      requires store.Contents().Valid()
      modifies store
      ensures Step(old(store.Contents()), store.Contents(), visible, batchSize, SetOf(failed), attempts, applied)
      ensures failures == FailedTopics(attempts)
      ensures err.None? ==> applied && n == |OkRows(attempts)|
      ensures err.None? && attempts == [] ==> batchSize >= 0 && Selection(store.rows, SetOf(failed), batchSize) == []
    {
      failures, n, attempts, applied := [], 0, [], false;
      visible := store.rows;
      var began := store.Begin();
      if !began {
        err := Some(BeginFailed);
        return;
      }
      var selected, k := store.Fetch(batchSize, failed);
      visible := store.rows;
      if selected.None? {
        store.Rollback();
        err := Some(FetchFailed);
        return;
      }
      OutsideAscending(store.rows, SetOf(failed));
      failures, n, err, attempts, applied := PublishAndDelete(selected.value);
    }

    /** The part of a step after the fetch. */
    method PublishAndDelete(rows: seq<Row>)
      returns (failures: seq<Topic>, n: nat, err: Option<FlushError>, ghost attempts: seq<Attempt>, ghost applied: bool)
      requires Ascending(rows) && store.pending == {}
      modifies store
      ensures store.arriving == old(store.arriving)
      ensures Answers(attempts, rows)
      ensures store.rows == if applied then Without(old(store.rows), Ids(OkRows(attempts))) else old(store.rows)
      ensures failures == FailedTopics(attempts)
      ensures err.None? ==> applied && n == |OkRows(attempts)|
      ensures attempts == [] ==> rows == [] && store.rows == old(store.rows)
    {
      if rows == [] {
        failures, n, attempts, applied := [], 0, [], true;
        assert Ids(OkRows(attempts)) == {};
        WithoutNone(store.rows, {});
        var ok, _ := store.Commit();
        err := if ok then None else Some(CommitFailed);
        return;
      }
      var groups := GroupByTopic(rows);
      assert HasGroup(groups, rows[0].topic);
      var published;
      published, failures, attempts := PublishGroups(groups);
      n, err, applied := Complete(published, store.rows, attempts);
      assert |GroupsOf(attempts)| == |attempts|;
    }

    /** The second half of a step: delete what was published, check the count, commit. */
    method Complete(published: seq<int>, ghost visible: seq<Row>, ghost attempts: seq<Attempt>)
      returns (n: nat, err: Option<FlushError>, ghost applied: bool)
      requires store.rows == visible && store.pending == {}
      requires |published| == |OkRows(attempts)| && forall id :: id in published <==> id in Ids(OkRows(attempts))
      modifies store
      ensures store.arriving == old(store.arriving)
      ensures store.rows == if applied then Without(visible, Ids(OkRows(attempts))) else visible
      ensures err.None? ==> applied && n == |published|
      ensures err.Some? ==> n == 0
    {
      n := 0;
      if |published| == 0 {
        assert Ids(OkRows(attempts)) == {};
        WithoutNone(visible, {});
        var ok, _ := store.Commit();
        applied := true;
        err := if ok then None else Some(CommitFailed);
        return;
      }
      applied := false;
      var deleted := store.Delete(published);
      if deleted.None? {
        store.Rollback();
        err := Some(DeleteFailed);
        return;
      }
      if deleted.value != |published| {
        store.Rollback();
        err := Some(CountMismatch(deleted.value, |published|));
        return;
      }
      CountedDeleteIsExact(published, store.pending);
      assert store.pending == Ids(OkRows(attempts)) by {
        forall id: int ensures id in store.pending <==> id in Ids(OkRows(attempts)) {
          assert id in published <==> id in Ids(OkRows(attempts));
        }
      }
      var ok;
      ok, applied := store.Commit();
      if !ok {
        store.Rollback();
        err := Some(CommitFailed);
        return;
      }
      n, err := |published|, None;
    }

    /** One step of a pass: what it adds to the pass, and that it makes progress if the pass goes on. */
    method FlushStep(failed: seq<Topic>, ghost before: seq<Attempt>)
      returns (failures: seq<Topic>, n: nat, err: Option<FlushError>, ghost step: seq<Attempt>, ghost applied: bool)
      requires Valid() && FailuresExplained(before, failed)
      modifies this, store
      ensures Valid() && origin == old(origin)
      ensures FailuresExplained(before + step, failed + failures)
      ensures OneStep(step)
      ensures done == old(done) + if applied then OkRows(step) else []
      ensures err.None? ==> applied
      ensures err.None? && n == 0 && failures == [] ==> step == []
      ensures err.None? && (n != 0 || failures != []) ==>
                Smaller(store.Contents(), SetOf(failed + failures), old(store.Contents()), SetOf(failed))
      ensures err.None? && n == 0 && failures == [] && batchSize > 0 ==> forall r :: r in store.rows ==> r.topic in failed
    {
      ghost var q, visible := store.Contents(), [];
      failures, n, err, visible, step, applied := FlushBatch(failed);
      StepExtendsPass(visible, store.rows, batchSize, failed, before, step, applied);
      if err.None? {
        if step != [] {
          StepGoesOn(q, store.Contents(), visible, batchSize, failed, step);
        } else {
          SelectedNothing(store.rows, failed, batchSize);
        }
      }
    }

    /**
     One pass. It ends for every batch size because each further step is followed by strictly less to
     select or fewer inserts to come. Without an error the last fetch found nothing, every row left
     belongs to a failed topic, and a pass without failed topics has emptied the table. The requests of
     all steps but the last took effect; after an error those of the last may have been undone.
     */
    method Flush() returns (failures: seq<Topic>, err: Option<FlushError>, ghost before: seq<Attempt>, ghost last: seq<Attempt>, ghost applied: bool)
      requires Valid()
      modifies this, store
      ensures Valid() && origin == old(origin)
      ensures forall r :: r in done ==> IsSent(confirmed, r)
      ensures FailuresExplained(before + last, failures)
      ensures OneStep(last) && done == old(done) + OkRows(before) + if applied then OkRows(last) else []
      ensures err.None? ==> applied && last == []
      ensures err.None? && batchSize > 0 ==> forall r :: r in store.rows ==> r.topic in failures
      ensures err.None? && batchSize > 0 && failures == [] ==> store.rows == []
    {
      failures, before, last, applied := [], [], [], true;
      var failed: seq<Topic> := [];
      while true
        invariant Valid() && origin == old(origin)
        invariant failed == failures && FailuresExplained(before, failures)
        invariant last == [] && done == old(done) + OkRows(before)
        decreases |store.arriving|, Open(store.rows, SetOf(failed))
      {
        var cancelled: bool := *;
        if cancelled {
          assert before + last == before;
          err := Some(Cancelled);
          return;
        }
        var stepFailures, n, stepErr, step, took := FlushStep(failed, before);
        failures := failures + stepFailures;
        if stepErr.Some? {
          err, last, applied := stepErr, step, took;
          return;
        }
        DoneExtends(old(done), before, step);
        failed := failed + stepFailures;
        if n == 0 && |stepFailures| == 0 {
          err, last := None, step;
          NothingLeft(store.rows, failures);
          return;
        }
        before := before + step;
      }
    }
  }

  /** The requests of one transaction: one for each topic of what it selected. */
  ghost predicate OneStep(step: seq<Attempt>) {
    step == [] || exists sel: seq<Row> :: Answers(step, sel)
  }

  lemma NothingLeft(rows: seq<Row>, failures: seq<Topic>)
    ensures failures == [] && (forall r :: r in rows ==> r.topic in failures) ==> rows == []
  {
    if rows != [] {
      assert rows[0] in rows;
    }
  }

  /**
   What the invariant means for one topic: what was durably published is the front of the topic's
   queue in id order, and what is left is exactly the rest of it.
   */
  lemma HistoryIsPrefix(origin: seq<Row>, done: seq<Row>, queued: seq<Row>, t: Topic)
    requires Ascending(RowsOf(origin, t)) && Splits(origin, done, queued, t)
    ensures RowsOf(done, t) <= RowsOf(origin, t) && Ascending(RowsOf(done, t))
    ensures RowsOf(queued, t) == RowsOf(origin, t)[|RowsOf(done, t)|..]
  {
    var front, all := RowsOf(done, t), RowsOf(origin, t);
    assert front + RowsOf(queued, t) == all;
    assert forall i :: 0 <= i < |front| ==> front[i] == all[i];
  }

  /** A step keeps the history of every topic whose rows become visible in id order. */
  lemma OrderGoesOn(origin: seq<Row>, done: seq<Row>, q: Queue, q': Queue, visible: seq<Row>, limit: int, failed: set<Topic>,
                    attempts: seq<Attempt>, applied: bool)
    requires q.Valid() && Step(q, q', visible, limit, failed, attempts, applied)
    requires forall t :: Ascending(RowsOf(origin, t)) ==> Splits(origin, done, q.All(), t)
    ensures var moved := if applied then OkRows(attempts) else [];
      forall t :: Ascending(RowsOf(origin, t)) ==> Splits(origin, done + moved, q'.All(), t)
  {
    var moved := if applied then OkRows(attempts) else [];
    forall t | Ascending(RowsOf(origin, t)) ensures Splits(origin, done + moved, q'.All(), t) {
      RestInOrder(origin, done, q.All(), t);
      StepConserves(q, q', visible, limit, failed, attempts, applied, t);
      SplitFurther(origin, done, q.All(), q'.All(), moved, t);
    }
  }

  /** What a transaction published was carried by its confirmed requests. */
  lemma MovedIsSent(rows: seq<Row>, rows': seq<Row>, limit: int, failed: set<Topic>, attempts: seq<Attempt>, applied: bool,
                    done: seq<Row>, confirmed: seq<Request>)
    requires Transaction(rows, rows', limit, failed, attempts, applied) && forall r :: r in done ==> IsSent(confirmed, r)
    ensures forall r :: r in done + (if applied then OkRows(attempts) else []) ==> IsSent(confirmed + OkRequests(attempts), r)
  {
    forall r | r in done || (applied && r in OkRows(attempts)) ensures IsSent(confirmed + OkRequests(attempts), r) {
      if r in OkRows(attempts) {
        StepIsSent(attempts, Selection(rows, failed, limit), r);
      }
      IsSentLater(confirmed, OkRequests(attempts), r);
    }
  }

  lemma MovedFurther(origin: seq<Row>, done: seq<Row>, queued: seq<Row>, queued': seq<Row>, moved: seq<Row>)
    requires multiset(done + queued) == multiset(origin) && multiset(moved + queued') == multiset(queued)
    ensures multiset(done + moved + queued') == multiset(origin)
  {
    assert (done + moved) + queued' == done + (moved + queued');
  }

  lemma SplitFurther(origin: seq<Row>, done: seq<Row>, queued: seq<Row>, queued': seq<Row>, moved: seq<Row>, t: Topic)
    requires Splits(origin, done, queued, t) && Splits(queued, moved, queued', t)
    ensures Splits(origin, done + moved, queued', t)
  {
    RowsOfConcat(done, moved, t);
    Regroup(RowsOf(done, t), RowsOf(moved, t), RowsOf(queued', t));
  }

  lemma DoneExtends(done: seq<Row>, before: seq<Attempt>, step: seq<Attempt>)
    ensures done + OkRows(before) + OkRows(step) == done + OkRows(before + step)
  {
    OkRowsConcat(before, step);
  }

  lemma OneMoreAttempt(attempts: seq<Attempt>, a: Attempt)
    ensures IdsOf(OkRows(attempts + [a])) == IdsOf(OkRows(attempts)) + if a.ok then IdsOf(a.group.rows) else []
    ensures FailedTopics(attempts + [a]) == FailedTopics(attempts) + if a.ok then [] else [a.group.topic]
  {
    assert (attempts + [a])[..|attempts|] == attempts;
  }

  lemma SelectedNothing(rows: seq<Row>, failed: seq<Topic>, limit: int)
    requires limit >= 0 && Selection(rows, SetOf(failed), limit) == []
    ensures limit > 0 ==> forall r :: r in rows ==> r.topic in failed
  {
    OutsideMembers(rows, SetOf(failed));
  }

  /** A step that sent something published rows or refused topics, and leaves less to do. */
  lemma StepGoesOn(q: Queue, q': Queue, visible: seq<Row>, limit: int, failed: seq<Topic>, step: seq<Attempt>)
    requires q.Valid() && Step(q, q', visible, limit, SetOf(failed), step, true) && step != []
    ensures OkRows(step) != [] || FailedTopics(step) != []
    ensures Smaller(q', SetOf(failed + FailedTopics(step)), q, SetOf(failed))
  {
    TransactionShows(visible, q'.rows, limit, SetOf(failed), step, true);
    StepMakesProgress(q, q', visible, limit, SetOf(failed), step);
    assert SetOf(failed + FailedTopics(step)) == SetOf(failed) + SetOf(FailedTopics(step));
  }

  lemma TransactionShows(rows: seq<Row>, rows': seq<Row>, limit: int, failed: set<Topic>, step: seq<Attempt>, applied: bool)
    requires Transaction(rows, rows', limit, failed, step, applied) && step != []
    ensures OkRows(step) != [] || FailedTopics(step) != []
  {
    EveryAttemptShows(step, Selection(rows, failed, limit));
  }

  lemma AnsweredTopicsDistinct(step: seq<Attempt>, sel: seq<Row>)
    requires Answers(step, sel)
    ensures forall i, j :: 0 <= i < j < |step| ==> step[i].group.topic != step[j].group.topic
  {
    assert forall i :: 0 <= i < |step| ==> GroupsOf(step)[i] == step[i].group;
  }

  lemma StepExtendsPass(rows: seq<Row>, rows': seq<Row>, limit: int, failed: seq<Topic>, before: seq<Attempt>, step: seq<Attempt>, applied: bool)
    requires Transaction(rows, rows', limit, SetOf(failed), step, applied)
    requires FailuresExplained(before, failed)
    ensures FailuresExplained(before + step, failed + FailedTopics(step))
    ensures OneStep(step)
  {
    if step == [] {
      assert before + step == before;
    } else {
      AnsweredTopicsDistinct(step, Selection(rows, SetOf(failed), limit));
      SelectionMembers(rows, SetOf(failed), limit);
      FailuresExtend(before, failed, step, Selection(rows, SetOf(failed), limit));
    }
  }
}

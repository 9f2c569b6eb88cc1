/**
 One step of the outbox flush as a relation on the queue, and the laws a whole pass is built from:
 a step that takes effect moves, of each topic, a prefix of the queue to the bus; a step that does not
 changes nothing; and a step after which the pass goes on leaves strictly less to select.
 */
module OutboxSteps {
  import opened Wrappers
  import opened OutboxRows

  datatype BatchMessage = BatchMessage(key: string, message: seq<int>, idempotencyKey: string, timestamp: string, version: int)

  datatype Request = Request(topic: Topic, messages: seq<BatchMessage>)

  /** One publish request of a topic's rows and whether the bus confirmed it. */
  datatype Attempt = Attempt(group: Group, request: Request, ok: bool)

  /** The visible rows in id order, and the rows still to become visible. */
  datatype Queue = Queue(rows: seq<Row>, arriving: seq<Row>) {
    ghost function All(): seq<Row> { rows + arriving }

    ghost predicate Valid() { Fresh(rows, arriving) }
  }

  // ----- What a step publishes -----

  function OrEmpty(text: Option<string>): (r: string)
    ensures text.Some? ==> r == text.value
    ensures text.None? ==> r == ""
  {
    if text.Some? then text.value else ""
  }

  /** The message carries the stored bytes and options of the row; a missing option is sent empty. */
  predicate CarriesRow(m: BatchMessage, r: Row) {
    && m.message == r.message
    && (r.options.key.Some? ==> m.key == r.options.key.value) && (r.options.key.None? ==> m.key == "")
    && (r.options.idempotencyKey.Some? ==> m.idempotencyKey == r.options.idempotencyKey.value)
    && (r.options.idempotencyKey.None? ==> m.idempotencyKey == "")
    && (r.options.timestamp.Some? ==> m.timestamp == r.options.timestamp.value)
    && (r.options.timestamp.None? ==> m.timestamp == "")
  }

  /** The Go client sends the stored version unless it is missing or zero, and then the row id. */
  predicate GoVersion(m: BatchMessage, r: Row) {
    && (r.options.version.Some? && r.options.version.value != 0 ==> m.version == r.options.version.value)
    && (r.options.version.None? || r.options.version.value == 0 ==> m.version == r.id)
  }

  /** One message for each row of the group, in order. */
  ghost predicate IsRequestOf(req: Request, g: Group) {
    && req.topic == g.topic
    && |req.messages| == |g.rows|
    && forall i :: 0 <= i < |g.rows| ==> CarriesRow(req.messages[i], g.rows[i]) && GoVersion(req.messages[i], g.rows[i])
  }

  /** The requests the bus confirmed, in the order they were sent. */
  function OkRequests(attempts: seq<Attempt>): seq<Request> {
    if attempts == [] then []
    else
      var last := attempts[|attempts| - 1];
      OkRequests(attempts[..|attempts| - 1]) + if last.ok then [last.request] else []
  }

  /** One of the requests, for the row's topic, carries the row. */
  ghost predicate IsSent(requests: seq<Request>, r: Row) {
    exists i, j :: 0 <= i < |requests| && 0 <= j < |requests[i].messages| && SentAs(requests[i], requests[i].messages[j], r)
  }

  predicate SentAs(req: Request, m: BatchMessage, r: Row) {
    req.topic == r.topic && CarriesRow(m, r) && GoVersion(m, r)
  }

  lemma IsSentLater(requests: seq<Request>, more: seq<Request>, r: Row)
    requires IsSent(requests, r) || IsSent(more, r)
    ensures IsSent(requests + more, r)
  {
    var all := requests + more;
    if i, j :| 0 <= i < |requests| && 0 <= j < |requests[i].messages| && SentAs(requests[i], requests[i].messages[j], r) {
      assert all[i] == requests[i];
    } else {
      var i, j :| 0 <= i < |more| && 0 <= j < |more[i].messages| && SentAs(more[i], more[i].messages[j], r);
      assert all[|requests| + i] == more[i];
    }
  }

  /** Every row of a confirmed group was carried by its request. */
  lemma {:induction false} OkRowIsSent(attempts: seq<Attempt>, r: Row)
    requires forall i :: 0 <= i < |attempts| ==> IsRequestOf(attempts[i].request, attempts[i].group)
    requires forall i, q :: 0 <= i < |attempts| && q in attempts[i].group.rows ==> q.topic == attempts[i].group.topic
    requires r in OkRows(attempts)
    ensures IsSent(OkRequests(attempts), r)
  {
    var init, last := attempts[..|attempts| - 1], attempts[|attempts| - 1];
    if r in OkRows(init) {
      OkRowIsSent(init, r);
      IsSentLater(OkRequests(init), if last.ok then [last.request] else [], r);
    } else {
      var j :| 0 <= j < |last.group.rows| && last.group.rows[j] == r;
      assert SentAs(last.request, last.request.messages[j], r);
      assert [last.request][0] == last.request;
      IsSentLater(OkRequests(init), [last.request], r);
    }
  }

  /** The rows a step's confirmed requests stand for were carried by them. */
  lemma StepIsSent(attempts: seq<Attempt>, sel: seq<Row>, r: Row)
    requires Answers(attempts, sel) && r in OkRows(attempts)
    ensures IsSent(OkRequests(attempts), r)
  {
    forall i, q | 0 <= i < |attempts| && q in attempts[i].group.rows ensures q.topic == attempts[i].group.topic {
      assert GroupsOf(attempts)[i] == attempts[i].group;
      RowsOfMembers(sel, attempts[i].group.topic);
    }
    OkRowIsSent(attempts, r);
  }

  /** The rows of the confirmed requests, in the order they were sent. */
  function OkRows(attempts: seq<Attempt>): seq<Row> {
    if attempts == [] then []
    else
      var last := attempts[|attempts| - 1];
      OkRows(attempts[..|attempts| - 1]) + if last.ok then last.group.rows else []
  }

  /** The topics of the refused requests, in the order they were sent. */
  function FailedTopics(attempts: seq<Attempt>): seq<Topic> {
    if attempts == [] then []
    else
      var last := attempts[|attempts| - 1];
      FailedTopics(attempts[..|attempts| - 1]) + if last.ok then [] else [last.group.topic]
  }

  function SetOf(topics: seq<Topic>): set<Topic> {
    set t | t in topics
  }

  ghost predicate Confirmed(attempts: seq<Attempt>, topic: Topic) {
    exists i :: 0 <= i < |attempts| && attempts[i].ok && attempts[i].group.topic == topic
  }

  ghost predicate Refused(attempts: seq<Attempt>, topic: Topic) {
    exists i :: 0 <= i < |attempts| && !attempts[i].ok && attempts[i].group.topic == topic
  }

  function GroupsOf(attempts: seq<Attempt>): seq<Group> {
    seq(|attempts|, i requires 0 <= i < |attempts| => attempts[i].group)
  }

  /** One request per group of the selection, in group order, each with the group's messages. */
  ghost predicate Answers(attempts: seq<Attempt>, sel: seq<Row>) {
    && IsGrouping(GroupsOf(attempts), sel)
    && forall i :: 0 <= i < |attempts| ==> IsRequestOf(attempts[i].request, attempts[i].group)
  }

  // ----- One step as a relation on the queue -----

  /**
   The first arrivals become visible before the fetch, and the transaction acts on the rows then
   visible.
   */
  ghost predicate Step(q: Queue, q': Queue, visible: seq<Row>, limit: int, failed: set<Topic>, attempts: seq<Attempt>, applied: bool) {
    && |q'.arriving| <= |q.arriving|
    && q'.arriving == q.arriving[|q.arriving| - |q'.arriving|..]
    && Merges(q.rows, q.arriving[..|q.arriving| - |q'.arriving|], visible)
    && Transaction(visible, q'.rows, limit, failed, attempts, applied)
  }

  ghost predicate Transaction(rows: seq<Row>, rows': seq<Row>, limit: int, failed: set<Topic>, attempts: seq<Attempt>, applied: bool) {
    || (attempts == [] && rows' == rows)
    || (limit >= 0
        && Answers(attempts, Selection(rows, failed, limit))
        && rows' == if applied then Without(rows, Ids(OkRows(attempts))) else rows)
  }

  /** Rows that a step with these failed topics may still select. */
  ghost function Open(rows: seq<Row>, failed: set<Topic>): set<Row> {
    set r | r in rows && r.topic !in failed
  }

  // ----- Lemmas about attempts -----

  lemma {:induction false} OkRowsConcat(a: seq<Attempt>, b: seq<Attempt>)
    ensures OkRows(a + b) == OkRows(a) + OkRows(b)
  {
    if b == [] {
      assert a + b == a;
    } else {
      assert (a + b)[..|a + b| - 1] == a + b[..|b| - 1];
      OkRowsConcat(a, b[..|b| - 1]);
    }
  }

  lemma {:induction false} FailedTopicsConcat(a: seq<Attempt>, b: seq<Attempt>)
    ensures FailedTopics(a + b) == FailedTopics(a) + FailedTopics(b)
  {
    if b == [] {
      assert a + b == a;
    } else {
      assert (a + b)[..|a + b| - 1] == a + b[..|b| - 1];
      FailedTopicsConcat(a, b[..|b| - 1]);
    }
  }

  lemma {:induction false} FailedTopicsMember(attempts: seq<Attempt>, t: Topic)
    ensures t in FailedTopics(attempts) <==> Refused(attempts, t)
  {
    if attempts != [] {
      var init, last := attempts[..|attempts| - 1], attempts[|attempts| - 1];
      FailedTopicsMember(init, t);
      assert attempts == init + [last];
      if i :| 0 <= i < |init| && !init[i].ok && init[i].group.topic == t {
        assert !attempts[i].ok;
      } else if !last.ok && last.group.topic == t {
        assert !attempts[|init|].ok;
      }
    }
  }

  lemma {:induction false} RowsOfIdempotent(rows: seq<Row>, topic: Topic)
    ensures RowsOf(RowsOf(rows, topic), topic) == RowsOf(rows, topic)
  {
    if rows != [] {
      RowsOfIdempotent(rows[..|rows| - 1], topic);
      var last := rows[|rows| - 1];
      if last.topic == topic {
        RowsOfConcat(RowsOf(rows[..|rows| - 1], topic), [last], topic);
        assert [last][..0] == [];
      }
    }
  }

  lemma RowsOfOther(rows: seq<Row>, topic: Topic, other: Topic)
    requires topic != other
    ensures RowsOf(RowsOf(rows, other), topic) == []
  {
    RowsOfMembers(rows, other);
    RowsOfNone(RowsOf(rows, other), topic);
  }

  lemma ConfirmedInit(attempts: seq<Attempt>, topic: Topic)
    requires attempts != []
    ensures Confirmed(attempts, topic) <==>
            Confirmed(attempts[..|attempts| - 1], topic) || (attempts[|attempts| - 1].ok && attempts[|attempts| - 1].group.topic == topic)
  {
    var init := attempts[..|attempts| - 1];
    if i :| 0 <= i < |init| && init[i].ok && init[i].group.topic == topic {
      assert attempts[i].ok;
    }
    if i :| 0 <= i < |attempts| && attempts[i].ok && attempts[i].group.topic == topic {
      assert i == |init| || init[i].ok;
    }
  }

  /** What the confirmed requests carry for one topic: all of its selected rows or none. */
  lemma {:induction false} OkRowsOfTopic(attempts: seq<Attempt>, sel: seq<Row>, topic: Topic)
    requires forall i :: 0 <= i < |attempts| ==> attempts[i].group.rows == RowsOf(sel, attempts[i].group.topic)
    requires forall i, j :: 0 <= i < j < |attempts| ==> attempts[i].group.topic != attempts[j].group.topic
    ensures RowsOf(OkRows(attempts), topic) == if Confirmed(attempts, topic) then RowsOf(sel, topic) else []
  {
    if attempts != [] {
      var init, last := attempts[..|attempts| - 1], attempts[|attempts| - 1];
      assert forall i :: 0 <= i < |init| ==> init[i] == attempts[i];
      OkRowsOfTopic(init, sel, topic);
      ConfirmedInit(attempts, topic);
      if last.ok {
        RowsOfConcat(OkRows(init), last.group.rows, topic);
        if last.group.topic == topic {
          RowsOfIdempotent(sel, topic);
          assert !Confirmed(init, topic);
        } else {
          RowsOfOther(sel, topic, last.group.topic);
        }
      } else {
        assert OkRows(attempts) == OkRows(init);
      }
    }
  }

  lemma AnsweredRows(attempts: seq<Attempt>, sel: seq<Row>, topic: Topic)
    requires Answers(attempts, sel)
    ensures RowsOf(OkRows(attempts), topic) == if Confirmed(attempts, topic) then RowsOf(sel, topic) else []
  {
    assert forall i :: 0 <= i < |attempts| ==> GroupsOf(attempts)[i] == attempts[i].group;
    OkRowsOfTopic(attempts, sel, topic);
  }

  // ----- Conservation of one step -----

  /** Of the topic, the rows of done followed by the rows of queued are the rows of origin. */
  ghost predicate Splits(origin: seq<Row>, done: seq<Row>, queued: seq<Row>, t: Topic) {
    RowsOf(done, t) + RowsOf(queued, t) == RowsOf(origin, t)
  }

  /** Deleting the ids of the first n rows leaves the rest. */
  lemma {:induction false} WithoutPrefix(queue: seq<Row>, n: nat, ids: set<int>)
    requires n <= |queue|
    requires forall i :: 0 <= i < |queue| ==> (queue[i].id in ids <==> i < n)
    ensures Without(queue, ids) == queue[n..]
  {
    if queue != [] {
      var init := queue[..|queue| - 1];
      assert queue == init + [queue[|queue| - 1]];
      if n == |queue| {
        WithoutPrefix(init, n - 1, ids);
      } else {
        WithoutPrefix(init, n, ids);
        assert queue[n..] == init[n..] + [queue[|queue| - 1]];
      }
    }
  }

  /** The rows a step's confirmed requests carry for a topic are a prefix of the topic's queue. */
  lemma PublishedIsPrefix(rows: seq<Row>, limit: nat, failed: set<Topic>, attempts: seq<Attempt>, topic: Topic)
    requires Answers(attempts, Selection(rows, failed, limit))
    ensures RowsOf(OkRows(attempts), topic) <= RowsOf(rows, topic)
  {
    var sel := Selection(rows, failed, limit);
    AnsweredRows(attempts, sel, topic);
    if topic in failed {
      SelectionMembers(rows, failed, limit);
      RowsOfNone(sel, topic);
    } else {
      SelectionIsPrefix(rows, failed, limit, topic);
    }
  }

  lemma PublishedRowIsQueued(rows: seq<Row>, limit: nat, failed: set<Topic>, attempts: seq<Attempt>, r: Row)
    requires Answers(attempts, Selection(rows, failed, limit)) && r in OkRows(attempts)
    ensures r in rows
  {
    PublishedIsPrefix(rows, limit, failed, attempts, r.topic);
    RowsOfMembers(OkRows(attempts), r.topic);
    RowsOfMembers(rows, r.topic);
    assert RowsOf(OkRows(attempts), r.topic) == RowsOf(rows, r.topic)[..|RowsOf(OkRows(attempts), r.topic)|];
  }

  /** A queued row of a topic carries a published id exactly when it is in the topic's published prefix. */
  lemma PublishedIdsArePrefix(rows: seq<Row>, limit: nat, failed: set<Topic>, attempts: seq<Attempt>, topic: Topic, i: nat)
    requires Ascending(rows)
    requires Answers(attempts, Selection(rows, failed, limit))
    requires i < |RowsOf(rows, topic)|
    ensures RowsOf(rows, topic)[i].id in Ids(OkRows(attempts)) <==> i < |RowsOf(OkRows(attempts), topic)|
  {
    var gone, queue := OkRows(attempts), RowsOf(rows, topic);
    var head := RowsOf(gone, topic);
    var r := queue[i];
    PublishedIsPrefix(rows, limit, failed, attempts, topic);
    RowsOfMembers(rows, topic);
    RowsOfMembers(gone, topic);
    RowsOfAscending(rows, topic);
    if i < |head| {
      assert r == head[i];
    }
    if g :| g in gone && g.id == r.id {
      PublishedRowIsQueued(rows, limit, failed, attempts, g);
      assert r in queue;
      SameIdSameRow(rows, g, r);
      var j :| 0 <= j < |head| && head[j] == r;
      assert queue[j] == r;
      assert j == i;
    }
  }

  lemma DeleteByPrefix(rows: seq<Row>, head: seq<Row>, ids: set<int>, topic: Topic)
    requires head <= RowsOf(rows, topic)
    requires forall i :: 0 <= i < |RowsOf(rows, topic)| ==> (RowsOf(rows, topic)[i].id in ids <==> i < |head|)
    ensures head + RowsOf(Without(rows, ids), topic) == RowsOf(rows, topic)
  {
    RowsOfWithout(rows, ids, topic);
    WithoutPrefix(RowsOf(rows, topic), |head|, ids);
  }

  /** Deleting the published rows removes, of each topic, exactly the published prefix. */
  lemma DeletedIsPublishedPrefix(rows: seq<Row>, limit: nat, failed: set<Topic>, attempts: seq<Attempt>, topic: Topic)
    requires Ascending(rows)
    requires Answers(attempts, Selection(rows, failed, limit))
    ensures RowsOf(OkRows(attempts), topic) + RowsOf(Without(rows, Ids(OkRows(attempts))), topic) == RowsOf(rows, topic)
  {
    forall i | 0 <= i < |RowsOf(rows, topic)|
      ensures RowsOf(rows, topic)[i].id in Ids(OkRows(attempts)) <==> i < |RowsOf(OkRows(attempts), topic)|
    {
      PublishedIdsArePrefix(rows, limit, failed, attempts, topic, i);
    }
    PublishedIsPrefix(rows, limit, failed, attempts, topic);
    DeleteByPrefix(rows, RowsOf(OkRows(attempts), topic), Ids(OkRows(attempts)), topic);
  }

  lemma {:induction false} WithoutUnique(rows: seq<Row>, ids: set<int>)
    requires UniqueIds(rows)
    ensures UniqueIds(Without(rows, ids))
  {
    if rows != [] {
      var init := rows[..|rows| - 1];
      WithoutUnique(init, ids);
      WithoutMembers(init, ids);
      forall i | 0 <= i < |Without(init, ids)| ensures Without(init, ids)[i].id != rows[|rows| - 1].id {
        assert Without(init, ids)[i] in init;
      }
    }
  }

  lemma SuffixAscending(front: seq<Row>, back: seq<Row>)
    requires Ascending(front + back)
    ensures Ascending(back)
  {
    assert forall i :: 0 <= i < |back| ==> back[i] == (front + back)[|front| + i];
  }

  /** A deletion by id leaves unique ids, also against the rows still to come. */
  lemma DeleteKeepsIds(rows: seq<Row>, arriving: seq<Row>, ids: set<int>)
    requires Fresh(rows, arriving)
    ensures Fresh(Without(rows, ids), arriving)
  {
    var all, kept := rows + arriving, Without(rows, ids);
    assert forall i :: 0 <= i < |rows| ==> rows[i] == all[i];
    assert forall i :: 0 <= i < |arriving| ==> arriving[i] == all[|rows| + i];
    WithoutAscending(rows, ids);
    WithoutMembers(rows, ids);
    forall i, j | 0 <= i < |kept| && 0 <= j < |arriving| ensures kept[i].id != arriving[j].id {
      assert kept[i] in rows;
      var a :| 0 <= a < |rows| && rows[a] == kept[i];
      assert all[a].id != all[|rows| + j].id;
    }
  }

  lemma Regroup(a: seq<Row>, b: seq<Row>, c: seq<Row>)
    ensures a + (b + c) == (a + b) + c
  {
  }

  lemma AppliedStepSplits(rows: seq<Row>, arriving: seq<Row>, limit: nat, failed: set<Topic>, attempts: seq<Attempt>, t: Topic)
    requires Ascending(rows)
    requires Answers(attempts, Selection(rows, failed, limit))
    ensures RowsOf(OkRows(attempts), t) + RowsOf(Without(rows, Ids(OkRows(attempts))) + arriving, t) == RowsOf(rows + arriving, t)
  {
    var kept := Without(rows, Ids(OkRows(attempts)));
    DeletedIsPublishedPrefix(rows, limit, failed, attempts, t);
    RowsOfConcat(rows, arriving, t);
    RowsOfConcat(kept, arriving, t);
    Regroup(RowsOf(OkRows(attempts), t), RowsOf(kept, t), RowsOf(arriving, t));
  }

  /** Queues that split topic by topic are, as rows, a partition. */
  lemma SplitIsPartition(origin: seq<Row>, done: seq<Row>, queued: seq<Row>)
    requires forall t :: Splits(origin, done, queued, t)
    ensures multiset(done + queued) == multiset(origin)
  {
    forall t ensures RowsOf(done + queued, t) == RowsOf(origin, t) {
      assert Splits(origin, done, queued, t);
      RowsOfConcat(done, queued, t);
    }
    SameQueuesSameRows(done + queued, origin);
  }

  lemma TransactionSplits(rows: seq<Row>, rows': seq<Row>, arriving: seq<Row>, limit: int, failed: set<Topic>, attempts: seq<Attempt>, applied: bool)
    requires Ascending(rows) && Transaction(rows, rows', limit, failed, attempts, applied)
    ensures var moved := if applied then OkRows(attempts) else []; forall t :: Splits(rows + arriving, moved, rows' + arriving, t)
  {
    if applied && !(attempts == [] && rows' == rows) {
      forall t ensures Splits(rows + arriving, OkRows(attempts), rows' + arriving, t) {
        AppliedStepSplits(rows, arriving, limit, failed, attempts, t);
      }
    }
  }

  /**
   One step, whenever rows become visible: each row is afterwards either durably published or queued,
   once, and a step that did not take effect moves none.
   */
  lemma StepKeepsRows(q: Queue, q': Queue, visible: seq<Row>, limit: int, failed: set<Topic>, attempts: seq<Attempt>, applied: bool)
    requires q.Valid() && Step(q, q', visible, limit, failed, attempts, applied)
    ensures q'.Valid()
    ensures multiset((if applied then OkRows(attempts) else []) + q'.All()) == multiset(q.All())
  {
    ArrivalsKeepRows(q.rows, q.arriving, |q.arriving| - |q'.arriving|, visible);
    TransactionSplits(visible, q'.rows, q'.arriving, limit, failed, attempts, applied);
    SplitIsPartition(visible + q'.arriving, if applied then OkRows(attempts) else [], q'.All());
    if q'.rows != visible {
      DeleteKeepsIds(visible, q'.arriving, Ids(OkRows(attempts)));
    }
  }

  /** What is left of a queue in order, after its front was taken, is in order. */
  lemma RestInOrder(origin: seq<Row>, done: seq<Row>, queued: seq<Row>, t: Topic)
    requires Ascending(RowsOf(origin, t)) && Splits(origin, done, queued, t)
    ensures Ascending(RowsOf(queued, t))
  {
    SuffixAscending(RowsOf(done, t), RowsOf(queued, t));
  }

  /**
   When the rows of a topic become visible in id order, one step keeps what was durably published of it
   followed by what is queued, whatever order the rows of other topics become visible in.
   */
  lemma StepConserves(q: Queue, q': Queue, visible: seq<Row>, limit: int, failed: set<Topic>, attempts: seq<Attempt>, applied: bool, t: Topic)
    requires q.Valid() && Step(q, q', visible, limit, failed, attempts, applied)
    requires Ascending(RowsOf(q.All(), t))
    ensures Splits(q.All(), if applied then OkRows(attempts) else [], q'.All(), t)
  {
    ArrivalsKeepQueue(q.rows, q.arriving, |q.arriving| - |q'.arriving|, visible, t);
    TransactionSplits(visible, q'.rows, q'.arriving, limit, failed, attempts, applied);
    assert Splits(visible + q'.arriving, if applied then OkRows(attempts) else [], q'.All(), t);
  }

  // ----- Progress of one step -----

  lemma SelectionShrinksOpen(rows: seq<Row>, limit: nat, failed: set<Topic>, attempts: seq<Attempt>)
    requires attempts != [] && Answers(attempts, Selection(rows, failed, limit))
    ensures Open(Without(rows, Ids(OkRows(attempts))), failed + SetOf(FailedTopics(attempts))) < Open(rows, failed)
  {
    var sel := Selection(rows, failed, limit);
    var kept := Without(rows, Ids(OkRows(attempts)));
    var failed' := failed + SetOf(FailedTopics(attempts));
    WithoutMembers(rows, Ids(OkRows(attempts)));
    assert Open(kept, failed') <= Open(rows, failed);
    var first := attempts[0];
    assert GroupsOf(attempts)[0] == first.group;
    var r := first.group.rows[0];
    RowsOfMembers(sel, first.group.topic);
    assert r in RowsOf(sel, first.group.topic);
    SelectionMembers(rows, failed, limit);
    assert r in Open(rows, failed);
    if first.ok {
      assert Confirmed(attempts, r.topic);
      AnsweredRows(attempts, sel, r.topic);
      RowsOfMembers(OkRows(attempts), r.topic);
      assert r.id in Ids(OkRows(attempts));
    } else {
      assert Refused(attempts, r.topic);
      FailedTopicsMember(attempts, r.topic);
    }
    assert r !in Open(kept, failed');
  }

  lemma NoArrivals(rows: seq<Row>, arriving: seq<Row>, visible: seq<Row>)
    requires Ascending(rows) && Merges(rows, arriving[..0], visible)
    ensures visible == rows
  {
    assert rows + arriving[..0] == rows;
    forall r ensures r in visible <==> r in rows {
      assert r in multiset(visible) <==> r in multiset(rows);
    }
    AscendingIsUnique(visible, rows);
  }

  /** The measure of a pass: inserts still to come, then the rows it may still select. */
  ghost predicate Smaller(q': Queue, failed': set<Topic>, q: Queue, failed: set<Topic>) {
    || |q'.arriving| < |q.arriving|
    || (|q'.arriving| == |q.arriving| && Open(q'.rows, failed') < Open(q.rows, failed))
  }

  /**
   A step that publishes and takes effect makes progress: either new rows arrived (there are finitely
   many) or strictly fewer rows can still be selected, because each selected row was deleted or its
   topic was excluded.
   */
  lemma StepMakesProgress(q: Queue, q': Queue, visible: seq<Row>, limit: int, failed: set<Topic>, attempts: seq<Attempt>)
    requires q.Valid() && Step(q, q', visible, limit, failed, attempts, true) && attempts != []
    ensures Smaller(q', failed + SetOf(FailedTopics(attempts)), q, failed)
  {
    if |q'.arriving| == |q.arriving| {
      NoArrivals(q.rows, q.arriving, visible);
      SelectionShrinksOpen(q.rows, limit, failed, attempts);
    }
  }

  // ----- Bookkeeping of a whole pass -----

  ghost predicate Distinct(topics: seq<Topic>) {
    forall i, j :: 0 <= i < j < |topics| ==> topics[i] != topics[j]
  }

  /** After a refused request nothing more is sent for its topic. */
  ghost predicate RefusedIsLast(attempts: seq<Attempt>) {
    forall i, j :: 0 <= i < j < |attempts| && attempts[i].group.topic == attempts[j].group.topic ==> attempts[i].ok
  }

  /** The failures of a pass are the distinct topics of its refused requests, each its topic's last request. */
  ghost predicate FailuresExplained(attempts: seq<Attempt>, failures: seq<Topic>) {
    && failures == FailedTopics(attempts)
    && Distinct(failures)
    && RefusedIsLast(attempts)
  }

  lemma {:induction false} RefusedLastMeansDistinct(attempts: seq<Attempt>)
    requires RefusedIsLast(attempts)
    ensures Distinct(FailedTopics(attempts))
  {
    if attempts != [] {
      var init, last := attempts[..|attempts| - 1], attempts[|attempts| - 1];
      assert forall i :: 0 <= i < |init| && !init[i].ok ==> attempts[i].group.topic != last.group.topic;
      RefusedLastMeansDistinct(init);
      FailedTopicsMember(init, last.group.topic);
    }
  }

  lemma RefusedStaysLast(before: seq<Attempt>, attempts: seq<Attempt>)
    requires RefusedIsLast(before)
    requires forall i, j :: 0 <= i < j < |attempts| ==> attempts[i].group.topic != attempts[j].group.topic
    requires forall i, j :: 0 <= i < |before| && !before[i].ok && 0 <= j < |attempts| ==> before[i].group.topic != attempts[j].group.topic
    ensures RefusedIsLast(before + attempts)
  {
  }

  lemma SentOutsideFailed(attempts: seq<Attempt>, sel: seq<Row>, failures: seq<Topic>, j: nat)
    requires Answers(attempts, sel) && j < |attempts|
    requires forall r :: r in sel ==> r.topic !in failures
    ensures attempts[j].group.topic !in failures
  {
    assert GroupsOf(attempts)[j] == attempts[j].group;
    RowsOfMembers(sel, attempts[j].group.topic);
    assert attempts[j].group.rows[0] in RowsOf(sel, attempts[j].group.topic);
  }

  lemma FailuresExtend(before: seq<Attempt>, failures: seq<Topic>, attempts: seq<Attempt>, sel: seq<Row>)
    requires FailuresExplained(before, failures)
    requires Answers(attempts, sel)
    requires forall r :: r in sel ==> r.topic !in failures
    ensures FailuresExplained(before + attempts, failures + FailedTopics(attempts))
  {
    FailedTopicsConcat(before, attempts);
    assert forall i :: 0 <= i < |attempts| ==> GroupsOf(attempts)[i] == attempts[i].group;
    forall i, j | 0 <= i < |before| && !before[i].ok && 0 <= j < |attempts|
      ensures before[i].group.topic != attempts[j].group.topic
    {
      FailedTopicsMember(before, before[i].group.topic);
      SentOutsideFailed(attempts, sel, failures, j);
    }
    RefusedStaysLast(before, attempts);
    RefusedLastMeansDistinct(before + attempts);
  }

  lemma EveryAttemptShows(attempts: seq<Attempt>, sel: seq<Row>)
    requires attempts != [] && Answers(attempts, sel)
    ensures OkRows(attempts) != [] || FailedTopics(attempts) != []
  {
    assert GroupsOf(attempts)[|attempts| - 1] == attempts[|attempts| - 1].group;
  }

  /** A counted delete that reports as many rows as were requested deleted exactly those. */
  lemma CountedDeleteIsExact(requested: seq<int>, affected: set<int>)
    requires forall id :: id in affected ==> id in requested
    requires |affected| == |requested|
    ensures forall id :: id in requested ==> id in affected
  {
    var all := set id: int | id in requested;
    SeqSetSize(requested);
    forall id | id in affected ensures id in all {}
    if id :| id in all && id !in affected {
      SubsetSize(affected + {id}, all);
    }
  }

  lemma {:induction false} SeqSetSize(s: seq<int>)
    ensures |set x | x in s| <= |s|
  {
    if s != [] {
      var init := s[..|s| - 1];
      SeqSetSize(init);
      assert s == init + [s[|s| - 1]];
      assert (set x | x in s) == (set x | x in init) + {s[|s| - 1]};
    }
  }

  lemma SubsetSize(a: set<int>, b: set<int>)
    requires a <= b
    ensures |a| <= |b|
  {
    assert b == a + (b - a);
  }
}

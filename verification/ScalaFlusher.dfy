/**
 The flush pass of the Scala client: a recursion over fetches in which every topic's batch is sent and
 then deleted by a statement of its own. A topic that fails at any point is left out of the rest of
 the pass, also when its batch was already confirmed and some of its rows already deleted.
 */
module ScalaFlusher {
  import opened Wrappers
  import opened OutboxRows
  import opened OutboxSteps

  // ----- Deleting part of one topic's head -----

  /** A group that was selected from the rows: the head of its topic's queue. */
  ghost predicate IsHead(g: Group, rows: seq<Row>) {
    g.rows != [] && g.rows <= RowsOf(rows, g.topic)
  }

  lemma DeleteSparesOthers(rows: seq<Row>, g: Group, ids: set<int>, t: Topic)
    requires Ascending(rows) && IsHead(g, rows) && ids <= Ids(g.rows) && t != g.topic
    ensures RowsOf(Without(rows, ids), t) == RowsOf(rows, t)
  {
    RowsOfWithout(rows, ids, t);
    RowsOfMembers(rows, t);
    RowsOfMembers(rows, g.topic);
    forall r | r in RowsOf(rows, t) ensures r.id !in ids {
      if r.id in ids {
        var x :| x in g.rows && x.id == r.id;
        assert x in RowsOf(rows, g.topic);
        SameIdSameRow(rows, x, r);
      }
    }
    WithoutNone(RowsOf(rows, t), ids);
  }

  lemma DeleteTakesHead(rows: seq<Row>, g: Group)
    requires Ascending(rows) && IsHead(g, rows)
    ensures g.rows + RowsOf(Without(rows, Ids(g.rows)), g.topic) == RowsOf(rows, g.topic)
  {
    var queue := RowsOf(rows, g.topic);
    RowsOfAscending(rows, g.topic);
    forall i | 0 <= i < |queue| ensures queue[i].id in Ids(g.rows) <==> i < |g.rows| {
      if i < |g.rows| {
        assert g.rows[i] == queue[i];
      } else {
        assert forall j :: 0 <= j < |g.rows| ==> g.rows[j] == queue[j];
      }
    }
    DeleteByPrefix(rows, g.rows, Ids(g.rows), g.topic);
  }

  // ----- What a pass keeps -----

  /** The topic was published from the front, in order, without a repetition. */
  ghost predicate InOrder(origin: seq<Row>, published: seq<Row>, t: Topic) {
    RowsOf(published, t) <= RowsOf(origin, t)
  }

  /** Nothing disappears unpublished and nothing appears. */
  ghost predicate NothingLost(origin: seq<Row>, published: seq<Row>, all: seq<Row>) {
    && (forall r | r in origin :: r in all || r in published)
    && (forall r | r in all :: r in origin)
  }

  /** No row is published twice, and a published row whose topic has not failed is gone. */
  ghost predicate Once(origin: seq<Row>, published: seq<Row>, all: seq<Row>, failed: set<Topic>) {
    && UniqueIds(published)
    && (forall r | r in published :: r in origin)
    && (forall r | r in published && r.topic !in failed :: r !in all)
  }

  /** Of a topic that has not failed, what was published followed by what is queued is its queue at the start. */
  ghost predicate InOrderSoFar(origin: seq<Row>, published: seq<Row>, rows: seq<Row>, arriving: seq<Row>, failed: set<Topic>, t: Topic) {
    && Ascending(RowsOf(rows + arriving, t))
    && InOrder(origin, published, t)
    && (t !in failed ==> Splits(origin, published, rows + arriving, t))
  }

  /** The last conjunct is for each topic whose rows become visible in id order. */
  ghost predicate Kept(origin: seq<Row>, published: seq<Row>, rows: seq<Row>, arriving: seq<Row>, failed: set<Topic>) {
    && Fresh(rows, arriving) && UniqueIds(origin)
    && NothingLost(origin, published, rows + arriving)
    && Once(origin, published, rows + arriving, failed)
    && forall t :: Ascending(RowsOf(origin, t)) ==> InOrderSoFar(origin, published, rows, arriving, failed, t)
  }

  lemma Refuse(origin: seq<Row>, published: seq<Row>, rows: seq<Row>, arriving: seq<Row>, failed: set<Topic>, topic: Topic)
    requires Kept(origin, published, rows, arriving, failed)
    ensures Kept(origin, published, rows, arriving, failed + {topic})
  {
  }

  lemma ArrivalsKeep(origin: seq<Row>, published: seq<Row>, rows: seq<Row>, arriving: seq<Row>, failed: set<Topic>, k: nat, visible: seq<Row>)
    requires Kept(origin, published, rows, arriving, failed)
    requires k <= |arriving| && Merges(rows, arriving[..k], visible)
    ensures Kept(origin, published, visible, arriving[k..], failed)
  {
    ArrivalsKeepRows(rows, arriving, k, visible);
    forall r ensures r in visible + arriving[k..] <==> r in rows + arriving {
      assert r in multiset(visible + arriving[k..]) <==> r in multiset(rows + arriving);
    }
    forall t | Ascending(RowsOf(origin, t)) ensures InOrderSoFar(origin, published, visible, arriving[k..], failed, t) {
      assert InOrderSoFar(origin, published, rows, arriving, failed, t);
      ArrivalsKeepQueue(rows, arriving, k, visible, t);
    }
  }

  lemma RowsOfGroup(g: Group, rows: seq<Row>, t: Topic)
    requires IsHead(g, rows)
    ensures RowsOf(g.rows, t) == if t == g.topic then g.rows else []
  {
    var queue := RowsOf(rows, g.topic);
    RowsOfMembers(rows, g.topic);
    if t != g.topic {
      assert forall r :: r in g.rows ==> r in queue;
      RowsOfNone(g.rows, t);
    } else {
      assert queue == g.rows + queue[|g.rows|..];
      AllOfTopic(g.rows, t);
    }
  }

  lemma {:induction false} AllOfTopic(rows: seq<Row>, t: Topic)
    requires forall i :: 0 <= i < |rows| ==> rows[i].topic == t
    ensures RowsOf(rows, t) == rows
  {
    if rows != [] {
      AllOfTopic(rows[..|rows| - 1], t);
    }
  }

  /** A confirmed batch keeps a topic in order, its own too, as long as that had not failed before. */
  lemma PublishKeepsOrder(origin: seq<Row>, published: seq<Row>, rows: seq<Row>, arriving: seq<Row>, g: Group, t: Topic)
    requires IsHead(g, rows) && InOrder(origin, published, t)
    requires t == g.topic ==> Splits(origin, published, rows + arriving, t)
    ensures InOrder(origin, published + g.rows, t)
  {
    RowsOfConcat(published, g.rows, t);
    RowsOfGroup(g, rows, t);
    RowsOfConcat(rows, arriving, g.topic);
  }

  /** Deleting some rows of a confirmed batch loses nothing. */
  lemma DeleteLosesNothing(origin: seq<Row>, published: seq<Row>, rows: seq<Row>, arriving: seq<Row>, g: Group, ids: set<int>)
    requires Ascending(rows) && IsHead(g, rows) && ids <= Ids(g.rows)
    requires NothingLost(origin, published, rows + arriving)
    ensures NothingLost(origin, published + g.rows, Without(rows, ids) + arriving)
  {
    WithoutMembers(rows, ids);
    RowsOfMembers(rows, g.topic);
    forall r | r in origin ensures r in Without(rows, ids) + arriving || r in published + g.rows {
      if r in rows && r.id in ids {
        var x :| x in g.rows && x.id == r.id;
        assert x in RowsOf(rows, g.topic);
        SameIdSameRow(rows, x, r);
      }
    }
  }

  lemma OthersStaySplit(origin: seq<Row>, published: seq<Row>, rows: seq<Row>, arriving: seq<Row>, g: Group, ids: set<int>, t: Topic)
    requires Ascending(rows) && IsHead(g, rows) && ids <= Ids(g.rows) && t != g.topic
    requires Splits(origin, published, rows + arriving, t)
    ensures Splits(origin, published + g.rows, Without(rows, ids) + arriving, t)
  {
    RowsOfConcat(published, g.rows, t);
    RowsOfGroup(g, rows, t);
    RowsOfConcat(rows, arriving, t);
    RowsOfConcat(Without(rows, ids), arriving, t);
    DeleteSparesOthers(rows, g, ids, t);
  }

  lemma OwnStaysSplit(origin: seq<Row>, published: seq<Row>, rows: seq<Row>, arriving: seq<Row>, g: Group)
    requires Ascending(rows) && IsHead(g, rows)
    requires Splits(origin, published, rows + arriving, g.topic)
    ensures Splits(origin, published + g.rows, Without(rows, Ids(g.rows)) + arriving, g.topic)
  {
    RowsOfConcat(published, g.rows, g.topic);
    RowsOfGroup(g, rows, g.topic);
    RowsOfConcat(rows, arriving, g.topic);
    RowsOfConcat(Without(rows, Ids(g.rows)), arriving, g.topic);
    DeleteTakesHead(rows, g);
    var front, left, later := RowsOf(published, g.topic), RowsOf(Without(rows, Ids(g.rows)), g.topic), RowsOf(arriving, g.topic);
    Regroup(g.rows, left, later);
    Regroup(front, g.rows, left + later);
  }

  lemma HeadIsVisible(rows: seq<Row>, arriving: seq<Row>, g: Group, r: Row)
    requires UniqueIds(rows + arriving) && IsHead(g, rows) && r in arriving
    ensures r.id !in Ids(g.rows)
  {
    var all := rows + arriving;
    var j :| 0 <= j < |arriving| && arriving[j] == r;
    assert all[|rows| + j] == r;
    RowsOfMembers(rows, g.topic);
    forall x | x in g.rows ensures x.id != r.id {
      assert x in RowsOf(rows, g.topic);
      var i :| 0 <= i < |rows| && rows[i] == x;
      assert all[i] == x;
    }
  }

  /** A partial deletion of some topic's head leaves the rest of a queue in order. */
  lemma PartialKeepsOrder(rows: seq<Row>, arriving: seq<Row>, g: Group, ids: set<int>, t: Topic)
    requires Fresh(rows, arriving) && Ascending(RowsOf(rows + arriving, t)) && IsHead(g, rows) && ids <= Ids(g.rows)
    ensures Ascending(RowsOf(Without(rows, ids) + arriving, t))
  {
    forall r | r in arriving ensures r.id !in ids {
      HeadIsVisible(rows, arriving, g, r);
    }
    WithoutNone(arriving, ids);
    WithoutConcat(rows, arriving, ids);
    RowsOfWithout(rows + arriving, ids, t);
    WithoutAscending(RowsOf(rows + arriving, t), ids);
  }

  lemma SameIdSameOrigin(origin: seq<Row>, a: Row, b: Row)
    requires UniqueIds(origin) && a in origin && b in origin && a.id == b.id
    ensures a == b
  {
    var i :| 0 <= i < |origin| && origin[i] == a;
    var j :| 0 <= j < |origin| && origin[j] == b;
    assert i == j;
  }

  lemma HeadMembers(g: Group, rows: seq<Row>)
    requires Ascending(rows) && IsHead(g, rows)
    ensures UniqueIds(g.rows) && forall r :: r in g.rows ==> r in rows && r.topic == g.topic
  {
    var queue := RowsOf(rows, g.topic);
    RowsOfMembers(rows, g.topic);
    RowsOfAscending(rows, g.topic);
    assert forall i :: 0 <= i < |g.rows| ==> g.rows[i] == queue[i];
    assert forall r :: r in g.rows ==> r in queue;
  }

  /** A batch of a topic that has not failed carries only rows that were never published before. */
  lemma BatchIsNew(origin: seq<Row>, published: seq<Row>, rows: seq<Row>, arriving: seq<Row>, failed: set<Topic>, g: Group, ids: set<int>)
    requires Kept(origin, published, rows, arriving, failed)
    requires IsHead(g, rows) && ids <= Ids(g.rows) && g.topic !in failed
    ensures Once(origin, published + g.rows, Without(rows, ids) + arriving, if ids == Ids(g.rows) then failed else failed + {g.topic})
  {
    HeadMembers(g, rows);
    WithoutMembers(rows, ids);
    forall r, x | r in published && x in g.rows ensures r.id != x.id {
      assert x in rows + arriving;
      if r.id == x.id {
        SameIdSameOrigin(origin, r, x);
      }
    }
    forall r | r in g.rows && ids == Ids(g.rows) ensures r !in Without(rows, ids) + arriving {
      if r in arriving {
        HeadIsVisible(rows, arriving, g, r);
      }
    }
  }

  lemma BatchKeepsOrder(origin: seq<Row>, published: seq<Row>, rows: seq<Row>, arriving: seq<Row>, failed: set<Topic>, g: Group, ids: set<int>, t: Topic)
    requires Fresh(rows, arriving) && InOrderSoFar(origin, published, rows, arriving, failed, t)
    requires IsHead(g, rows) && ids <= Ids(g.rows) && g.topic !in failed
    ensures InOrderSoFar(origin, published + g.rows, Without(rows, ids), arriving,
                         if ids == Ids(g.rows) then failed else failed + {g.topic}, t)
  {
    PartialKeepsOrder(rows, arriving, g, ids, t);
    PublishKeepsOrder(origin, published, rows, arriving, g, t);
    if t != g.topic && t !in failed {
      OthersStaySplit(origin, published, rows, arriving, g, ids, t);
    } else if t == g.topic && ids == Ids(g.rows) {
      OwnStaysSplit(origin, published, rows, arriving, g);
    }
  }

  /** A confirmed batch of which some rows were deleted: its topic counts as failed unless all of them were. */
  lemma BatchKeeps(origin: seq<Row>, published: seq<Row>, rows: seq<Row>, arriving: seq<Row>, failed: set<Topic>, g: Group, ids: set<int>)
    requires Kept(origin, published, rows, arriving, failed)
    requires IsHead(g, rows) && ids <= Ids(g.rows) && g.topic !in failed
    ensures Kept(origin, published + g.rows, Without(rows, ids), arriving,
                 if ids == Ids(g.rows) then failed else failed + {g.topic})
  {
    DeleteKeepsIds(rows, arriving, ids);
    DeleteLosesNothing(origin, published, rows, arriving, g, ids);
    BatchIsNew(origin, published, rows, arriving, failed, g, ids);
    forall t | Ascending(RowsOf(origin, t))
      ensures InOrderSoFar(origin, published + g.rows, Without(rows, ids), arriving,
                           if ids == Ids(g.rows) then failed else failed + {g.topic}, t)
    {
      assert InOrderSoFar(origin, published, rows, arriving, failed, t);
      BatchKeepsOrder(origin, published, rows, arriving, failed, g, ids, t);
    }
  }

  // ----- One batch -----

  /** The Scala client sends the stored version, also if it is zero, and the row id only for a missing one. */
  predicate ScalaVersion(m: BatchMessage, r: Row) {
    && (r.options.version.Some? ==> m.version == r.options.version.value)
    && (r.options.version.None? ==> m.version == r.id)
  }

  /** The two clients send the same message for a row unless its version is an explicit zero. */
  lemma ClientsSendTheSameIff(r: Row, go: BatchMessage, scala: BatchMessage)
    requires CarriesRow(go, r) && GoVersion(go, r) && CarriesRow(scala, r) && ScalaVersion(scala, r)
    ensures go == scala <==> (r.options.version == Some(0) ==> r.id == 0)
  {
  }

  ghost predicate IsBatchOf(req: Request, g: Group) {
    && req.topic == g.topic
    && |req.messages| == |g.rows|
    && forall i :: 0 <= i < |g.rows| ==> CarriesRow(req.messages[i], g.rows[i]) && ScalaVersion(req.messages[i], g.rows[i])
  }

  predicate ProducedAs(req: Request, m: BatchMessage, r: Row) {
    req.topic == r.topic && CarriesRow(m, r) && ScalaVersion(m, r)
  }

  /** One of the requests, for the row's topic, carries the row. */
  ghost predicate IsProduced(requests: seq<Request>, r: Row) {
    exists i, j :: 0 <= i < |requests| && 0 <= j < |requests[i].messages| && ProducedAs(requests[i], requests[i].messages[j], r)
  }

  lemma SentLater(requests: seq<Request>, g: Group, req: Request, rows: seq<Row>, published: seq<Row>)
    requires IsHead(g, rows) && IsBatchOf(req, g) && forall r :: r in published ==> IsProduced(requests, r)
    ensures forall r :: r in published + g.rows ==> IsProduced(requests + [req], r)
  {
    var all := requests + [req];
    RowsOfMembers(rows, g.topic);
    forall r | r in published + g.rows ensures IsProduced(all, r) {
      if r in published {
        var i, j :| 0 <= i < |requests| && 0 <= j < |requests[i].messages| && ProducedAs(requests[i], requests[i].messages[j], r);
        assert all[i] == requests[i];
      } else {
        var j :| 0 <= j < |g.rows| && g.rows[j] == r;
        assert RowsOf(rows, g.topic)[j] == r;
        assert all[|requests|] == req && ProducedAs(req, req.messages[j], r);
      }
    }
  }

  /** What became of a batch; affected are the ids its delete removed, reported the count it returned if it did not fail. */
  datatype Outcome =
    | Refused
    | Confirmed(affected: set<int>, reported: Option<nat>)

  ghost predicate BatchStep(rows: seq<Row>, rows': seq<Row>, g: Group, o: Outcome) {
    match o
    case Refused => rows' == rows
    case Confirmed(affected, reported) =>
      && affected <= Ids(g.rows) && rows' == Without(rows, affected)
      && (reported.Some? ==> reported.value == |affected|)
  }

  ghost predicate Flushed(g: Group, o: Outcome) {
    o.Confirmed? && o.reported == Some(|g.rows|)
  }

  /**
   A failed topic keeps its rows if and only if the bus refused its batch or the delete removed nothing:
   a delete that took effect and then failed, or counted too few rows, is not undone.
   */
  lemma FailedTopicKeepsRowsIff(rows: seq<Row>, rows': seq<Row>, g: Group, o: Outcome)
    requires Ascending(rows) && IsHead(g, rows) && BatchStep(rows, rows', g, o)
    ensures RowsOf(rows', g.topic) == RowsOf(rows, g.topic) <==> o.Refused? || o.affected == {}
  {
    if o.Confirmed? {
      if id :| id in o.affected {
        var r :| r in g.rows && r.id == id;
        HeadMembers(g, rows);
        WithoutMembers(rows, o.affected);
        RowsOfMembers(rows, g.topic);
        RowsOfMembers(rows', g.topic);
        assert r in RowsOf(rows, g.topic) && r !in RowsOf(rows', g.topic);
      } else {
        WithoutNone(rows, o.affected);
      }
    }
  }

  /** One flusher, one row: the delete takes effect, its answer is lost, and the failed topic has lost its row. */
  lemma FailedTopicCanLoseRows(r: Row)
    ensures var g, o := Group(r.topic, [r]), Confirmed({r.id}, None);
      && IsHead(g, [r]) && BatchStep([r], [], g, o) && !Flushed(g, o)
      && RowsOf([r], r.topic) == [r] && RowsOf([], r.topic) == []
  {
    assert [r][..0] == [];
    assert Without([r], {r.id}) == [];
  }

  // ----- The store and the pass -----

  /** The outbox table with the rows still to be inserted; every statement commits by itself. */
  class Store {
    var rows: seq<Row>
    var arriving: seq<Row>

    constructor (rows: seq<Row>, arriving: seq<Row>)
      ensures this.rows == rows && this.arriving == arriving
    {
      this.rows, this.arriving := rows, arriving;
    }

    method FetchBatch(limit: nat, failed: set<Topic>) returns (fetched: Option<seq<Row>>, ghost k: nat)
      requires Fresh(rows, arriving)
      modifies this
      ensures k <= |old(arriving)| && Merges(old(rows), old(arriving)[..k], rows) && arriving == old(arriving)[k..]
      ensures fetched.Some? ==> fetched.value == Selection(rows, failed, limit)
    {
      var visible: nat :| visible <= |arriving|;
      k := visible;
      rows := Arrive(rows, arriving, visible);
      arriving := arriving[visible..];
      var broken: bool := *;
      fetched := if broken then None else Some(Selection(rows, failed, limit));
    }

    /** Deletes some of the rows and reports how many; a reported failure leaves open which ones. */
    method DeleteBatch(ids: seq<int>) returns (deleted: Option<nat>, ghost affected: set<int>)
      modifies this`rows
      ensures rows == Without(old(rows), affected) && forall id :: id in affected ==> id in ids
      ensures deleted.Some? ==> deleted.value == |affected|
    {
      var requested := set id: int | id in ids;
      var some: set<int> :| some <= requested;
      affected := some;
      assert forall id :: id in affected ==> id in requested;
      rows := Without(rows, some);
      var broken: bool := *;
      deleted := if broken then None else Some(|some|);
    }
  }

  /** The groups before i are flushed or excluded, the others still the heads of their topics. */
  ghost predicate Underway(groups: seq<Group>, i: nat, before: seq<Row>, rows: seq<Row>, failed: set<Topic>)
  {
    && (forall j :: 0 <= j < |groups| ==> groups[j].rows != [])
    && (forall r :: r in rows ==> r in before)
    && (forall j :: i <= j < |groups| ==> IsHead(groups[j], rows) && groups[j].topic !in failed)
    && (forall j :: 0 <= j < i && j < |groups| ==> groups[j].topic in failed || groups[j].rows[0] !in rows)
  }

  lemma HeadsStay(groups: seq<Group>, i: nat, rows: seq<Row>, ids: set<int>)
    requires i < |groups| && Ascending(rows) && IsHead(groups[i], rows) && ids <= Ids(groups[i].rows)
    requires forall j, k :: 0 <= j < k < |groups| ==> groups[j].topic != groups[k].topic
    requires forall j :: i < j < |groups| ==> IsHead(groups[j], rows)
    ensures forall j :: i < j < |groups| ==> IsHead(groups[j], Without(rows, ids))
  {
    forall j | i < j < |groups| ensures IsHead(groups[j], Without(rows, ids)) {
      DeleteSparesOthers(rows, groups[i], ids, groups[j].topic);
    }
  }

  lemma UnderwayNext(groups: seq<Group>, i: nat, before: seq<Row>, rows: seq<Row>, ids: set<int>,
                     failed: set<Topic>, failed': set<Topic>)
    requires i < |groups| && Ascending(rows) && Underway(groups, i, before, rows, failed)
    requires forall j, k :: 0 <= j < k < |groups| ==> groups[j].topic != groups[k].topic
    requires ids <= Ids(groups[i].rows)
    requires failed' == failed + {groups[i].topic} || (failed' == failed && ids == Ids(groups[i].rows))
    ensures Underway(groups, i + 1, before, Without(rows, ids), failed')
  {
    HeadsStay(groups, i, rows, ids);
    WithoutMembers(rows, ids);
    assert groups[i].rows[0] in groups[i].rows;
  }

  lemma RemovedIds(rows: seq<Row>, rows': seq<Row>, g: Group, o: Outcome) returns (ids: set<int>)
    requires BatchStep(rows, rows', g, o)
    ensures ids <= Ids(g.rows) && rows' == Without(rows, ids) && (o.Confirmed? ==> ids == o.affected)
  {
    ids := if o.Confirmed? then o.affected else {};
    if o.Refused? {
      WithoutNone(rows, {});
    }
  }

  /** A delete asked for a batch's ids that counts as many rows as the batch has removed exactly the batch. */
  lemma DeletedIsOfBatch(g: Group, affected: set<int>, deleted: Option<nat>)
    requires (forall id :: id in affected ==> id in IdsOf(g.rows)) && (deleted.Some? ==> deleted.value == |affected|)
    ensures affected <= Ids(g.rows)
    ensures deleted == Some(|g.rows|) ==> affected == Ids(g.rows)
  {
    IdsOfMembers(g.rows);
    forall id | id in affected ensures id in Ids(g.rows) {
      assert id in IdsOf(g.rows);
    }
    if deleted == Some(|g.rows|) {
      CountedDeleteIsExact(IdsOf(g.rows), affected);
    }
  }

  function ProduceMessage(r: Row): (m: BatchMessage)
    ensures CarriesRow(m, r) && ScalaVersion(m, r)
  {
    BatchMessage(OrEmpty(r.options.key), r.message, OrEmpty(r.options.idempotencyKey), OrEmpty(r.options.timestamp),
                 if r.options.version.Some? then r.options.version.value else r.id)
  }

  class FlusherPass {
    const batchSize: nat
    const store: Store
    ghost var origin: seq<Row>
    ghost var published: seq<Row>
    /** The requests the bus confirmed. */
    ghost var confirmed: seq<Request>

    /** Every published row was carried, with its stored bytes and options, by a confirmed request for its topic. */
    ghost predicate Valid(failed: set<Topic>)
      reads this, store
    {
      && Kept(origin, published, store.rows, store.arriving, failed)
      && forall r :: r in published ==> IsProduced(confirmed, r)
    }

    constructor (store: Store, batchSize: nat)
      requires batchSize > 0 && Fresh(store.rows, store.arriving)
      ensures this.store == store && this.batchSize == batchSize
      ensures origin == store.rows + store.arriving && published == [] && Valid({})
    {
      this.store, this.batchSize := store, batchSize;
      origin, published, confirmed := store.rows + store.arriving, [], [];
    }

    /** Sends one topic's rows and deletes them; anything short of deleting them all is a failure. */
    method FlushBatch(g: Group, ghost failed: set<Topic>) returns (ok: bool, ghost request: Request, ghost outcome: Outcome)
      requires Valid(failed) && IsHead(g, store.rows) && g.topic !in failed
      modifies `published, `confirmed, store`rows
      ensures IsBatchOf(request, g)
      ensures request.topic == g.topic && |request.messages| == |g.rows|
      ensures forall i :: 0 <= i < |g.rows| ==>
                var m, r := request.messages[i], g.rows[i];
                && m.message == r.message
                && m.key == (if r.options.key.Some? then r.options.key.value else "")
                && m.idempotencyKey == (if r.options.idempotencyKey.Some? then r.options.idempotencyKey.value else "")
                && m.timestamp == (if r.options.timestamp.Some? then r.options.timestamp.value else "")
                && m.version == if r.options.version.Some? then r.options.version.value else r.id
      ensures BatchStep(old(store.rows), store.rows, g, outcome) && ok == Flushed(g, outcome)
      ensures published == old(published) + if outcome.Confirmed? then g.rows else []
      ensures Valid(if ok then failed else failed + {g.topic})
      ensures ok ==> outcome.affected == Ids(g.rows)
      ensures !ok ==> (RowsOf(store.rows, g.topic) == RowsOf(old(store.rows), g.topic) <==> outcome.Refused? || outcome.affected == {})
    {
      var ids := IdsOf(g.rows);
      var messages := seq(|g.rows|, i requires 0 <= i < |g.rows| => ProduceMessage(g.rows[i]));
      request := Request(g.topic, messages);
      ghost var rows := store.rows;
      var accepted: bool := *;
      if !accepted {
        outcome := Refused;
        Refuse(origin, published, store.rows, store.arriving, failed, g.topic);
        return false, request, outcome;
      }
      var deleted, affected := store.DeleteBatch(ids);
      outcome := Confirmed(affected, deleted);
      DeletedIsOfBatch(g, affected, deleted);
      BatchKeeps(origin, published, rows, store.arriving, failed, g, affected);
      FailedTopicKeepsRowsIff(rows, store.rows, g, outcome);
      SentLater(confirmed, g, request, rows, published);
      published, confirmed := published + g.rows, confirmed + [request];
      ok := deleted == Some(|ids|);
      if !ok && affected == Ids(g.rows) {
        Refuse(origin, published, store.rows, store.arriving, failed, g.topic);
      }
    }

    /** The topics of one fetch, one after another; a failed one does not stop the others. */
    method FlushGroups(groups: seq<Group>, ghost sel: seq<Row>, ghost before: seq<Row>, failed: set<Topic>)
      returns (failed': set<Topic>)
      requires Valid(failed) && store.rows == before && IsGrouping(groups, sel)
      requires forall i :: 0 <= i < |groups| ==> IsHead(groups[i], before) && groups[i].topic !in failed
      modifies `published, `confirmed, store`rows
      ensures Valid(failed') && failed <= failed'
      ensures forall r :: r in store.rows ==> r in before
      ensures forall i :: 0 <= i < |groups| ==> groups[i].topic in failed' || groups[i].rows[0] !in store.rows
    {
      failed' := failed;
      for i := 0 to |groups|
        invariant Valid(failed') && failed <= failed'
        invariant Underway(groups, i, before, store.rows, failed')
      {
        failed' := FlushNext(groups, i, before, failed');
      }
    }

    method FlushNext(groups: seq<Group>, i: nat, ghost before: seq<Row>, failed: set<Topic>) returns (failed': set<Topic>)
      requires i < |groups| && Valid(failed) && Underway(groups, i, before, store.rows, failed)
      requires forall j, k :: 0 <= j < k < |groups| ==> groups[j].topic != groups[k].topic
      modifies `published, `confirmed, store`rows
      ensures Valid(failed') && failed <= failed'
      ensures Underway(groups, i + 1, before, store.rows, failed')
    {
      ghost var rows := store.rows;
      var ok, request, outcome := FlushBatch(groups[i], failed);
      failed' := if ok then failed else failed + {groups[i].topic};
      ghost var ids := RemovedIds(rows, store.rows, groups[i], outcome);
      UnderwayNext(groups, i, before, rows, ids, failed, failed');
    }

    /** One fetch and its batches; goesOn says that there was something to send. */
    method FlushFetched(failed: set<Topic>) returns (ok: bool, goesOn: bool, failed': set<Topic>)
      requires Valid(failed) && batchSize > 0
      modifies `published, `confirmed, store
      ensures Valid(failed') && failed <= failed'
      ensures ok && !goesOn ==> forall r :: r in store.rows ==> r.topic in failed'
      ensures goesOn ==> ok && Smaller(Queue(store.rows, store.arriving), failed', old(Queue(store.rows, store.arriving)), failed)
    {
      ghost var rows, arriving := store.rows, store.arriving;
      var fetched, k := store.FetchBatch(batchSize, failed);
      ArrivalsKeep(origin, published, rows, arriving, failed, k, store.rows);
      if fetched.None? {
        return false, false, failed;
      }
      if fetched.value == [] {
        OutsideMembers(store.rows, failed);
        return true, false, failed;
      }
      ghost var before := store.rows;
      if k == 0 {
        NoArrivals(rows, arriving, before);
      }
      var groups := SelectGroups(fetched.value, failed);
      failed' := FlushGroups(groups, fetched.value, before, failed);
      OpenShrinks(before, store.rows, failed, failed', groups, fetched.value, batchSize);
      return true, true, failed';
    }

    /**
     One pass. It ends because a step either makes rows visible or leaves strictly less to select;
     when it ends without a broken fetch, every row left belongs to a failed topic, and a pass without
     failed topics has emptied the table.
     */
    method ProcessMessages(failed: set<Topic>) returns (ok: bool, failed': set<Topic>)
      requires Valid(failed) && batchSize > 0
      modifies `published, `confirmed, store
      ensures Valid(failed') && failed <= failed'
      ensures forall r :: r in published ==> IsProduced(confirmed, r)
      ensures ok ==> forall r :: r in store.rows ==> r.topic in failed'
      ensures ok && failed' == {} ==> store.rows == []
      decreases |store.arriving|, Open(store.rows, failed)
    {
      var goesOn;
      ok, goesOn, failed' := FlushFetched(failed);
      if goesOn {
        ok, failed' := ProcessMessages(failed');
      } else if ok {
        assert store.rows != [] ==> store.rows[0] in store.rows;
      }
    }

    method SelectGroups(fetched: seq<Row>, ghost failed: set<Topic>) returns (groups: seq<Group>)
      requires Valid(failed) && fetched == Selection(store.rows, failed, batchSize)
      ensures IsGrouping(groups, fetched)
      ensures forall i :: 0 <= i < |groups| ==> IsHead(groups[i], store.rows) && groups[i].topic !in failed
    {
      OutsideAscending(store.rows, failed);
      groups := GroupByTopic(fetched);
      forall i | 0 <= i < |groups| ensures IsHead(groups[i], store.rows) && groups[i].topic !in failed {
        RowsOfMembers(fetched, groups[i].topic);
        assert groups[i].rows[0] in RowsOf(fetched, groups[i].topic);
        SelectionMembers(store.rows, failed, batchSize);
        SelectionIsPrefix(store.rows, failed, batchSize, groups[i].topic);
      }
    }
  }

  /** Every selected topic lost its first row or was excluded. */
  lemma OpenShrinks(before: seq<Row>, after: seq<Row>, failed: set<Topic>, failed': set<Topic>, groups: seq<Group>, sel: seq<Row>, limit: nat)
    requires sel != [] && sel == Selection(before, failed, limit) && IsGrouping(groups, sel) && failed <= failed'
    requires forall r :: r in after ==> r in before
    requires forall i :: 0 <= i < |groups| ==> groups[i].topic in failed' || groups[i].rows[0] !in after
    ensures Open(after, failed') < Open(before, failed)
  {
    assert HasGroup(groups, sel[0].topic);
    var g := groups[0];
    var r := g.rows[0];
    RowsOfMembers(sel, g.topic);
    assert r in RowsOf(sel, g.topic);
    SelectionMembers(before, failed, limit);
    assert r in Open(before, failed) && r !in Open(after, failed');
  }
}

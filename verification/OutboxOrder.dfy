/**
 The order of one topic across several flushers. A row that becomes visible after rows of its topic with
 higher ids can break it, and two open transactions can then hold rows of that topic. When the rows of
 the topic become visible in id order, a selection holds a prefix of it, so no two transactions share
 the topic and its durable publishes are in id order, whatever happens in the other topics.
 */
module OutboxOrder {
  import opened OutboxRows
  import opened OutboxReplicas

  /** A new row of the topic follows every row of the topic, queued or not. */
  ghost predicate TopicGrows(seen: set<Row>, r: Row, t: Topic) {
    r.topic == t ==> forall q :: q in seen && q.topic == t ==> q.id < r.id
  }

  /** In this run the rows of the topic become visible in id order. */
  ghost predicate InOrderRun(states: seq<State>, actions: seq<Action>, t: Topic) {
    |states| == |actions| + 1 &&
    forall k :: 0 <= k < |actions| && actions[k].DoInsert? ==> TopicGrows(states[k].seen, actions[k].r, t)
  }

  // ----- Invariant -----

  /** The held rows of the topic are everything of it up to the last one held. */
  ghost predicate HoldsPrefix(table: seq<Row>, held: seq<Row>, t: Topic) {
    forall r, q :: r in held && q in table && r.topic == t && q.topic == t && q.id < r.id ==> q in held
  }

  /** Whatever precedes a row of the topic still to be scanned is held or still to be scanned. */
  ghost predicate ScansInOrder(table: seq<Row>, held: seq<Row>, todo: seq<Row>, t: Topic) {
    forall r, q :: r in todo && q in table && r.topic == t && q.topic == t && q.id < r.id ==> q in held || q in todo
  }

  ghost predicate ReplicaInOrder(s: State, p: Phase, t: Topic) {
    && HoldsPrefix(s.table, HeldBy(p), t)
    && (p.Fetching? ==> ScansInOrder(s.table, p.held, p.todo, t))
  }

  /** Every row of a precedes every row of b. */
  ghost predicate Before(a: set<Row>, b: set<Row>) {
    forall r, q :: r in a && q in b ==> r.id < q.id
  }

  ghost predicate EntryInOrder(s: State, e: Sent, t: Topic) {
    Durable(s, e) && e.topic == t ==> forall r, q :: r in e.rows && q in s.table && q.topic == t ==> r.id < q.id
  }

  ghost predicate PairInOrder(s: State, a: Sent, b: Sent, t: Topic) {
    a.topic == t && b.topic == t ==> !Active(s, a) && (Durable(s, a) ==> Before(a.rows, b.rows))
  }

  ghost predicate LogInOrder(s: State, t: Topic) {
    && (forall k :: 0 <= k < |s.log| ==> EntryInOrder(s, s.log[k], t))
    && (forall a, b :: 0 <= a < b < |s.log| ==> PairInOrder(s, s.log[a], s.log[b], t))
  }

  ghost predicate OrderInv(s: State, t: Topic) {
    && (forall i :: 0 <= i < |s.replicas| ==> ReplicaInOrder(s, s.replicas[i], t))
    && LogInOrder(s, t)
  }

  // ----- Consequences of holding prefixes -----

  /** The selections of two replicas cannot share a topic: both would hold its first row. */
  lemma NoSharedTopic(s: State, i: nat, j: nat, r: Row, q: Row)
    requires Inv(s) && OrderInv(s, r.topic) && i < |s.replicas| && j < |s.replicas| && i != j
    requires r in HeldBy(s.replicas[i]) && q in HeldBy(s.replicas[j])
    ensures r.topic != q.topic
  {
    assert ReplicaOk(s, s.replicas[i]) && ReplicaOk(s, s.replicas[j]);
    assert ReplicaInOrder(s, s.replicas[i], r.topic) && ReplicaInOrder(s, s.replicas[j], r.topic);
    assert Separate(s.replicas[i], s.replicas[j]);
    if r.topic == q.topic && r.id == q.id {
      SameIdSameRow(s.table, r, q);
    }
  }

  /** Another transaction that published this topic cannot still be in progress. */
  lemma TopicIsFree(s: State, i: nat, topic: Topic, a: Sent)
    requires Inv(s) && OrderInv(s, topic) && i < |s.replicas| && s.replicas[i].Publishing?
    requires topic !in s.replicas[i].answered && RowsOf(s.replicas[i].held, topic) != []
    requires EntryOk(s, a) && a.topic == topic
    ensures !Active(s, a)
  {
    var held := s.replicas[i].held;
    RowsOfMembers(held, topic);
    var q := RowsOf(held, topic)[0];
    assert q in RowsOf(held, topic);
    var r :| r in a.rows;
    forall j | 0 <= j < |s.replicas| && !s.replicas[j].Idle?
      ensures s.replicas[j].tx != a.tx
    {
      assert SentByHolder(a, s.replicas[j]);
      if j != i && r in HeldBy(s.replicas[j]) {
        NoSharedTopic(s, i, j, q, r);
      }
    }
  }

  // ----- Each step keeps the order -----

  lemma InsertOrder(s: State, s': State, r: Row, t: Topic)
    requires Inv(s) && OrderInv(s, t) && Insert(s, s', r) && TopicGrows(s.seen, r, t)
    ensures OrderInv(s', t)
  {
    InsertMembers(s, s', r);
    forall i | 0 <= i < |s'.replicas| ensures ReplicaInOrder(s', s'.replicas[i], t) {
      assert ReplicaOk(s, s.replicas[i]) && ReplicaInOrder(s, s.replicas[i], t);
    }
    forall e | 0 <= e < |s'.log| ensures EntryInOrder(s', s'.log[e], t) {
      assert EntryOk(s, s.log[e]) && EntryInOrder(s, s.log[e], t);
    }
    forall a, b | 0 <= a < b < |s'.log| ensures PairInOrder(s', s'.log[a], s'.log[b], t) {
      assert PairInOrder(s, s.log[a], s.log[b], t);
    }
  }

  /** A step that changes only one replica, which keeps its transaction or starts a new one. */
  lemma ReplicaStepOrder(s: State, s': State, i: nat, t: Topic)
    requires Inv(s) && OrderInv(s, t) && i < |s.replicas| && |s'.replicas| == |s.replicas|
    requires s' == s.(replicas := s.replicas[i := s'.replicas[i]], nextTx := s'.nextTx)
    requires ReplicaInOrder(s', s'.replicas[i], t)
    requires !s'.replicas[i].Idle? ==>
               || s'.replicas[i].tx == s.nextTx
               || (!s.replicas[i].Idle? && s'.replicas[i].tx == s.replicas[i].tx)
    ensures OrderInv(s', t)
  {
    forall j | 0 <= j < |s'.replicas| ensures ReplicaInOrder(s', s'.replicas[j], t) {
      assert ReplicaInOrder(s, s.replicas[j], t);
    }
    forall e | 0 <= e < |s'.log| ensures EntryInOrder(s', s'.log[e], t) {
      assert EntryInOrder(s, s.log[e], t);
    }
    forall a, b | 0 <= a < b < |s'.log| ensures PairInOrder(s', s'.log[a], s'.log[b], t) {
      assert PairInOrder(s, s.log[a], s.log[b], t) && EntryOk(s, s.log[a]);
      if j :| 0 <= j < |s'.replicas| && !s'.replicas[j].Idle? && s'.replicas[j].tx == s'.log[a].tx {
        assert Active(s, s.log[a]) by {
          assert !s.replicas[j].Idle? && s.replicas[j].tx == s.log[a].tx;
        }
      }
    }
  }

  /** Taking or skipping the next row of the scan keeps what is held prefix-closed. */
  lemma ScanGoesOn(table: seq<Row>, seen: set<Row>, held: seq<Row>, todo: seq<Row>, t: Topic)
    requires todo != [] && ScanOk(seen, held, todo) && HoldsPrefix(table, held, t) && ScansInOrder(table, held, todo, t)
    ensures todo[0] in table ==> HoldsPrefix(table, held + [todo[0]], t) && ScansInOrder(table, held + [todo[0]], todo[1..], t)
    ensures todo[0] !in table ==> ScansInOrder(table, held, todo[1..], t)
  {
    RestFollows(todo);
    assert forall h :: h in held + [todo[0]] <==> h in held || h == todo[0];
  }

  lemma QuietOrder(s: State, s': State, a: Action, t: Topic)
    requires Inv(s) && OrderInv(s, t) && Next(s, s', a)
    requires a.DoBegin? || a.DoLock? || a.DoFetched? || a.DoRollback?
    ensures OrderInv(s', t)
  {
    var p := s.replicas[a.i];
    assert ReplicaOk(s, p) && ReplicaInOrder(s, p, t);
    if a.DoBegin? {
      OutsideMembers(s.table, a.failed);
    } else if a.DoLock? {
      ScanGoesOn(s.table, s.seen, p.held, p.todo, t);
    }
    ReplicaStepOrder(s, s', a.i, t);
  }

  lemma PublishPairOrder(s: State, s': State, i: nat, topic: Topic, ok: bool, a: nat, b: nat, t: Topic)
    requires Inv(s) && OrderInv(s, t) && Publish(s, s', i, topic, ok) && a < b < |s'.log|
    ensures PairInOrder(s', s'.log[a], s'.log[b], t)
  {
    var p := s.replicas[i];
    assert Active(s', s'.log[a]) ==> Active(s, s.log[a]) by {
      if j :| 0 <= j < |s'.replicas| && !s'.replicas[j].Idle? && s'.replicas[j].tx == s'.log[a].tx {
        assert !s.replicas[j].Idle? && s.replicas[j].tx == s.log[a].tx;
      }
    }
    assert EntryOk(s, s.log[a]) && EntryInOrder(s, s.log[a], t);
    if b < |s.log| {
      assert PairInOrder(s, s.log[a], s.log[b], t);
    } else if s.log[a].topic == t && topic == t {
      TopicIsFree(s, i, t, s.log[a]);
      assert ReplicaOk(s, p);
    }
  }

  lemma PublishOrder(s: State, s': State, i: nat, topic: Topic, ok: bool, t: Topic)
    requires Inv(s) && OrderInv(s, t) && Publish(s, s', i, topic, ok)
    ensures OrderInv(s', t)
  {
    forall j | 0 <= j < |s'.replicas| ensures ReplicaInOrder(s', s'.replicas[j], t) {
      assert ReplicaInOrder(s, s.replicas[j], t);
    }
    forall e | 0 <= e < |s'.log| ensures EntryInOrder(s', s'.log[e], t) {
      if e < |s.log| {
        assert EntryInOrder(s, s.log[e], t);
      } else {
        assert ReplicaOk(s, s.replicas[i]);
      }
    }
    forall a, b | 0 <= a < b < |s'.log| ensures PairInOrder(s', s'.log[a], s'.log[b], t) {
      PublishPairOrder(s, s', i, topic, ok, a, b, t);
    }
  }

  lemma CommitEntryOrder(s: State, s': State, i: nat, k: nat, t: Topic)
    requires Inv(s) && OrderInv(s, t) && Commit(s, s', i) && k < |s.log|
    ensures EntryInOrder(s', s.log[k], t)
  {
    var p, e := s.replicas[i], s.log[k];
    assert EntryOk(s, e) && EntryInOrder(s, e, t) && ReplicaOk(s, p) && ReplicaInOrder(s, p, t);
    WithoutMembers(s.table, Deleted(s, p.tx));
    forall r, q | Durable(s', e) && e.topic == t && r in e.rows && q in s'.table && q.topic == t
      ensures r.id < q.id
    {
      if e.tx == p.tx {
        assert SentByHolder(e, p);
        DeletedRow(s, i, q);
        if r.id == q.id {
          SameIdSameRow(s.table, r, q);
        }
      }
    }
  }

  lemma CommitPairOrder(s: State, s': State, i: nat, a: nat, b: nat, t: Topic)
    requires Inv(s) && OrderInv(s, t) && Commit(s, s', i) && a < b < |s.log|
    ensures PairInOrder(s', s.log[a], s.log[b], t)
  {
    assert PairInOrder(s, s.log[a], s.log[b], t);
    if s.log[a].tx == s.replicas[i].tx {
      assert Active(s, s.log[a]);
    }
    if j :| 0 <= j < |s'.replicas| && !s'.replicas[j].Idle? && s'.replicas[j].tx == s.log[a].tx {
      assert !s.replicas[j].Idle? && s.replicas[j].tx == s.log[a].tx;
    }
  }

  lemma CommitOrder(s: State, s': State, i: nat, t: Topic)
    requires Inv(s) && OrderInv(s, t) && Commit(s, s', i)
    ensures OrderInv(s', t)
  {
    WithoutMembers(s.table, Deleted(s, s.replicas[i].tx));
    forall j | 0 <= j < |s'.replicas| ensures ReplicaInOrder(s', s'.replicas[j], t) {
      assert ReplicaInOrder(s, s.replicas[j], t);
    }
    forall k | 0 <= k < |s'.log| ensures EntryInOrder(s', s'.log[k], t) { CommitEntryOrder(s, s', i, k, t); }
    forall a, b | 0 <= a < b < |s'.log| ensures PairInOrder(s', s'.log[a], s'.log[b], t) { CommitPairOrder(s, s', i, a, b, t); }
  }

  lemma NextOrder(s: State, s': State, a: Action, t: Topic)
    requires Inv(s) && OrderInv(s, t) && Next(s, s', a) && (a.DoInsert? ==> TopicGrows(s.seen, a.r, t))
    ensures OrderInv(s', t)
  {
    match a
    case DoInsert(r) => InsertOrder(s, s', r, t);
    case DoPublish(i, topic, ok) => PublishOrder(s, s', i, topic, ok, t);
    case DoCommit(i) => CommitOrder(s, s', i, t);
    case _ => QuietOrder(s, s', a, t);
  }

  lemma {:induction false} RunOrder(states: seq<State>, actions: seq<Action>, k: nat, t: Topic)
    requires Run(states, actions) && InOrderRun(states, actions, t) && k < |states|
    ensures OrderInv(states[k], t)
  {
    if k > 0 {
      RunOrder(states, actions, k - 1, t);
      RunInv(states, actions, k - 1);
      NextOrder(states[k - 1], states[k], actions[k - 1], t);
    }
  }

  // ----- Runs in which the rows of one topic become visible in id order -----

  /** No two replicas ever hold rows of such a topic at the same time. */
  lemma TopicsNeverShared(states: seq<State>, actions: seq<Action>, k: nat, i: nat, j: nat, r: Row, q: Row)
    requires Run(states, actions) && InOrderRun(states, actions, r.topic) && k < |states|
    requires i < |states[k].replicas| && j < |states[k].replicas| && i != j
    requires r in HeldBy(states[k].replicas[i]) && q in HeldBy(states[k].replicas[j])
    ensures r.topic != q.topic
  {
    RunInv(states, actions, k);
    RunOrder(states, actions, k, r.topic);
    NoSharedTopic(states[k], i, j, r, q);
  }

  ghost predicate IdsInOrder(s: State, a: Sent, b: Sent, t: Topic) {
    Durable(s, a) && Durable(s, b) ==> forall r, q :: r in a.rows && q in b.rows && r.topic == t && q.topic == t ==> r.id < q.id
  }

  /** The durable publishes of the topic are in ascending id order in the log. */
  ghost predicate OrderedLog(s: State, t: Topic) {
    forall a, b :: 0 <= a < b < |s.log| ==> IdsInOrder(s, s.log[a], s.log[b], t)
  }

  /**
   Across all replicas, the durable publishes of such a topic are in ascending id order, whichever
   replica sent them, whatever failed in between, and however late rows of other topics come.
   */
  lemma DurablePublishesInOrder(states: seq<State>, actions: seq<Action>, k: nat, t: Topic)
    requires Run(states, actions) && InOrderRun(states, actions, t) && k < |states|
    ensures OrderedLog(states[k], t)
  {
    RunInv(states, actions, k);
    RunOrder(states, actions, k, t);
    var s := states[k];
    forall a, b | 0 <= a < b < |s.log| ensures IdsInOrder(s, s.log[a], s.log[b], t) {
      assert EntryOk(s, s.log[a]) && EntryOk(s, s.log[b]) && PairInOrder(s, s.log[a], s.log[b], t);
    }
  }

  // ----- Runs built step by step -----

  /** A property of the rows inserted so far and the state reached, kept by every step. */
  type Reach = (seq<Row>, State) -> bool

  function InsertedBy(a: Action): seq<Row> {
    if a.DoInsert? then [a.r] else []
  }

  ghost predicate Closed(reach: Reach) {
    forall rows, s, s', a :: reach(rows, s) && Next(s, s', a) ==> reach(rows + InsertedBy(a), s')
  }

  /** A step other than an insert. */
  lemma TakeStep(reach: Reach, rows: seq<Row>, s: State, a: Action, s': State)
    requires Closed(reach) && reach(rows, s) && Next(s, s', a) && !a.DoInsert?
    ensures reach(rows, s')
  {
    assert rows + InsertedBy(a) == rows;
  }

  lemma BeginStep(reach: Reach, rows: seq<Row>, s: State, i: nat, failed: set<Topic>) returns (s': State)
    requires Closed(reach) && reach(rows, s) && i < |s.replicas| && s.replicas[i].Idle?
    ensures reach(rows, s')
    ensures s' == s.(replicas := s.replicas[i := Fetching(s.nextTx, Outside(s.table, failed), [])], nextTx := s.nextTx + 1)
  {
    s' := s.(replicas := s.replicas[i := Fetching(s.nextTx, Outside(s.table, failed), [])], nextTx := s.nextTx + 1);
    TakeStep(reach, rows, s, DoBegin(i, failed), s');
  }

  /** The replica locks the first row of its scan, which is queued and not locked. */
  lemma LockStep(reach: Reach, rows: seq<Row>, s: State, i: nat) returns (s': State)
    requires Closed(reach) && reach(rows, s) && i < |s.replicas| && s.replicas[i].Fetching?
    requires s.replicas[i].todo != [] && s.replicas[i].held == []
    requires s.replicas[i].todo[0] in s.table && !Locked(s, s.replicas[i].todo[0])
    ensures reach(rows, s')
    ensures var p := s.replicas[i]; s' == s.(replicas := s.replicas[i := Fetching(p.tx, p.todo[1..], [p.todo[0]])])
  {
    var p := s.replicas[i];
    assert p.held + [p.todo[0]] == [p.todo[0]];
    s' := s.(replicas := s.replicas[i := p.(todo := p.todo[1..], held := p.held + [p.todo[0]])]);
    TakeStep(reach, rows, s, DoLock(i, 1), s');
  }

  lemma FetchedStep(reach: Reach, rows: seq<Row>, s: State, i: nat) returns (s': State)
    requires Closed(reach) && reach(rows, s) && i < |s.replicas| && s.replicas[i].Fetching? && s.replicas[i].todo == []
    ensures reach(rows, s')
    ensures var p := s.replicas[i]; s' == s.(replicas := s.replicas[i := Publishing(p.tx, p.held, {})])
  {
    s' := s.(replicas := s.replicas[i := Publishing(s.replicas[i].tx, s.replicas[i].held, {})]);
    TakeStep(reach, rows, s, DoFetched(i, 1), s');
  }

  /** The replica publishes the one row it holds, and the bus confirms it. */
  lemma PublishStep(reach: Reach, rows: seq<Row>, s: State, i: nat, tx: nat, r: Row) returns (s': State)
    requires Closed(reach) && reach(rows, s) && i < |s.replicas| && s.replicas[i] == Publishing(tx, [r], {})
    ensures reach(rows, s')
    ensures s' == s.(replicas := s.replicas[i := Publishing(tx, [r], {r.topic})], log := s.log + [Sent(tx, r.topic, {r}, true)])
  {
    assert RowsOf([r], r.topic) != [] by { assert [r][..0] == []; }
    assert HeldOf([r], r.topic) == {r} && {} + {r.topic} == {r.topic};
    s' := s.(replicas := s.replicas[i := Publishing(tx, [r], {r.topic})], log := s.log + [Sent(tx, r.topic, {r}, true)]);
    TakeStep(reach, rows, s, DoPublish(i, r.topic, true), s');
  }

  lemma CommitStep(reach: Reach, rows: seq<Row>, s: State, i: nat, tx: nat, r: Row) returns (s': State)
    requires Closed(reach) && reach(rows, s) && i < |s.replicas| && s.replicas[i] == Publishing(tx, [r], {r.topic})
    ensures reach(rows, s')
    ensures s' == s.(table := Without(s.table, Deleted(s, tx)), replicas := s.replicas[i := Idle], committed := s.committed + {tx})
  {
    s' := s.(table := Without(s.table, Deleted(s, tx)), replicas := s.replicas[i := Idle], committed := s.committed + {tx});
    TakeStep(reach, rows, s, DoCommit(i), s');
  }

  lemma {:induction false} InsertPlace(table: seq<Row>, r: Row) returns (p: nat)
    requires Ascending(table) && forall q :: q in table ==> q.id != r.id
    ensures p <= |table| && Ascending(table[..p] + [r] + table[p..])
  {
    p := |table|;
    while p > 0 && r.id < table[p - 1].id
      invariant p <= |table| && forall i :: p <= i < |table| ==> r.id < table[i].id
    {
      p := p - 1;
    }
    assert p > 0 ==> table[p - 1] in table;
  }

  lemma InsertStep(reach: Reach, rows: seq<Row>, s: State, r: Row) returns (s': State)
    requires Closed(reach) && reach(rows, s) && Ascending(s.table)
    requires (forall q :: q in s.table ==> q in s.seen) && forall q :: q in s.seen ==> q.id != r.id
    ensures reach(rows + [r], s')
    ensures s' == s.(table := s'.table, seen := s.seen + {r}) && Ascending(s'.table)
    ensures forall q :: q in s'.table <==> q in s.table || q == r
  {
    var p := InsertPlace(s.table, r);
    s' := s.(table := s.table[..p] + [r] + s.table[p..], seen := s.seen + {r});
    assert s.table == s.table[..p] + s.table[p..];
    assert InsertedBy(DoInsert(r)) == [r];
    assert Next(s, s', DoInsert(r));
    assert reach(rows + InsertedBy(DoInsert(r)), s');
  }

  /** An idle replica begins and locks the first row of its selection. */
  lemma HoldFirst(reach: Reach, rows: seq<Row>, s: State, i: nat, failed: set<Topic>) returns (s': State)
    requires Closed(reach) && reach(rows, s) && i < |s.replicas| && s.replicas[i].Idle?
    requires var sel := Outside(s.table, failed); sel != [] && !Locked(s, sel[0])
    ensures reach(rows, s')
    ensures var sel := Outside(s.table, failed);
      s' == s.(replicas := s.replicas[i := Fetching(s.nextTx, sel[1..], [sel[0]])], nextTx := s.nextTx + 1)
  {
    var sel := Outside(s.table, failed);
    OutsideMembers(s.table, failed);
    assert sel[0] in s.table;
    var b := BeginStep(reach, rows, s, i, failed);
    assert forall j :: 0 <= j < |b.replicas| ==> HeldBy(b.replicas[j]) == HeldBy(s.replicas[j]);
    s' := LockStep(reach, rows, b, i);
    assert s'.replicas == s.replicas[i := Fetching(s.nextTx, sel[1..], [sel[0]])];
  }

  // ----- A late row -----

  /**
   Row r of a topic becomes visible after a later row q of it was locked: the second replica locks r
   while the first holds q, so both publish the topic at the same time. Stated for every property that
   holds of the start and is kept by every step, so in particular for being reached by a run.
   */
  lemma LateRowSharesTopic(reach: Reach, r: Row, q: Row) returns (s: State)
    requires r.topic == q.topic && r.id < q.id
    requires Closed(reach) && reach([], State([q], {q}, [Idle, Idle], [], {}, 0))
    ensures reach([r], s) && |s.replicas| == 2 && HeldBy(s.replicas[0]) == [q] && HeldBy(s.replicas[1]) == [r]
  {
    OutsideNone([q]);
    s := HoldFirst(reach, [], State([q], {q}, [Idle, Idle], [], {}, 0), 0, {});
    assert [q][1..] == [] && s.replicas == [Fetching(0, [], [q]), Idle];
    s := LateInsert(reach, s, r, q);
  }

  lemma TwoRows(table: seq<Row>, r: Row, q: Row)
    requires Ascending(table) && r.id < q.id && forall x :: x in table <==> x == q || x == r
    ensures table == [r, q]
  {
    AscendingIsUnique(table, [r, q]);
  }

  lemma LateInsert(reach: Reach, s: State, r: Row, q: Row) returns (s': State)
    requires r.topic == q.topic && r.id < q.id && Closed(reach) && reach([], s)
    requires s == State([q], {q}, [Fetching(0, [], [q]), Idle], [], {}, 1)
    ensures reach([r], s') && s'.replicas == [Fetching(0, [], [q]), Fetching(1, [q], [r])]
  {
    var inserted := InsertStep(reach, [], s, r);
    assert [] + [r] == [r];
    TwoRows(inserted.table, r, q);
    s' := LateHold(reach, inserted, r, q);
  }

  lemma LateHold(reach: Reach, s: State, r: Row, q: Row) returns (s': State)
    requires r.id < q.id && Closed(reach) && reach([r], s)
    requires s.table == [r, q] && s.replicas == [Fetching(0, [], [q]), Idle] && s.nextTx == 1
    ensures reach([r], s') && s'.replicas == [Fetching(0, [], [q]), Fetching(1, [q], [r])]
  {
    OutsideNone([r, q]);
    assert !Locked(s, r);
    s' := HoldFirst(reach, [r], s, 1, {});
    assert [r, q][1..] == [q];
  }

  lemma {:induction false} OutsideNone(rows: seq<Row>)
    ensures Outside(rows, {}) == rows
  {
    if rows != [] {
      OutsideNone(rows[..|rows| - 1]);
    }
  }

  // ----- When the order of a topic is kept -----

  /** The rows inserted in a run, in the order they became visible. */
  function Inserted(actions: seq<Action>): seq<Row> {
    if actions == [] then []
    else
      var init, last := Inserted(actions[..|actions| - 1]), actions[|actions| - 1];
      if last.DoInsert? then init + [last.r] else init
  }

  lemma {:induction false} SeenIsInserted(states: seq<State>, actions: seq<Action>, k: nat)
    requires Run(states, actions) && k <= |actions| && states[0].table == []
    ensures forall r :: r in states[k].seen <==> r in Inserted(actions[..k])
  {
    if k > 0 {
      SeenIsInserted(states, actions, k - 1);
      assert actions[..k][..k - 1] == actions[..k - 1];
      assert Next(states[k - 1], states[k], actions[k - 1]);
    }
  }

  lemma {:induction false} InsertedPrefix(actions: seq<Action>, k: nat)
    requires k <= |actions|
    ensures Inserted(actions[..k]) <= Inserted(actions)
  {
    if k < |actions| {
      InsertedPrefix(actions[..|actions| - 1], k);
      assert actions[..|actions| - 1][..k] == actions[..k];
    } else {
      assert actions[..k] == actions;
    }
  }

  /** In a list with a topic in order, a row of it follows all earlier ones. */
  lemma LastOfTopic(rows: seq<Row>, r: Row, q: Row)
    requires Ascending(RowsOf(rows + [r], r.topic)) && q in rows && q.topic == r.topic
    ensures q.id < r.id
  {
    assert (rows + [r])[..|rows|] == rows;
    RowsOfMembers(rows, r.topic);
    var front := RowsOf(rows, r.topic);
    var j :| 0 <= j < |front| && front[j] == q;
    assert RowsOf(rows + [r], r.topic) == front + [r];
    assert (front + [r])[j] == q && (front + [r])[|front|] == r;
  }

  lemma AscendingRowsAreInOrder(states: seq<State>, actions: seq<Action>, t: Topic)
    requires Run(states, actions) && states[0].table == [] && Ascending(RowsOf(Inserted(actions), t))
    ensures InOrderRun(states, actions, t)
  {
    forall k | 0 <= k < |actions| && actions[k].DoInsert? && actions[k].r.topic == t
      ensures TopicGrows(states[k].seen, actions[k].r, t)
    {
      var r, rows := actions[k].r, Inserted(actions[..k]);
      SeenIsInserted(states, actions, k);
      assert actions[..k + 1][..k] == actions[..k];
      assert Inserted(actions[..k + 1]) == rows + [r];
      InsertedPrefix(actions, k + 1);
      RowsOfPrefix(Inserted(actions), |rows| + 1, t);
      assert Inserted(actions)[..|rows| + 1] == rows + [r];
      var front, all := RowsOf(rows + [r], t), RowsOf(Inserted(actions), t);
      assert forall i :: 0 <= i < |front| ==> front[i] == all[i];
      forall q | q in states[k].seen && q.topic == t ensures q.id < r.id {
        LastOfTopic(rows, r, q);
      }
    }
  }

  // One transaction of replica 0 publishes the only row of a topic.

  ghost predicate AllIdle(s: State) {
    |s.replicas| >= 1 && forall i :: 0 <= i < |s.replicas| ==> s.replicas[i].Idle?
  }

  function OtherTopics(table: seq<Row>, t: Topic): set<Topic> {
    set q | q in table && q.topic != t :: q.topic
  }

  lemma OnlyRowOfTopic(table: seq<Row>, r: Row)
    requires Ascending(table) && r in table && forall q :: q in table && q.topic == r.topic ==> q == r
    ensures Outside(table, OtherTopics(table, r.topic)) == [r]
  {
    OutsideMembers(table, OtherTopics(table, r.topic));
    OutsideAscending(table, OtherTopics(table, r.topic));
    AscendingIsUnique(Outside(table, OtherTopics(table, r.topic)), [r]);
  }

  /** The state after replica 0 published row r by itself. */
  ghost predicate RowFlushed(s: State, s': State, r: Row) {
    && s'.replicas == s.replicas && s'.seen == s.seen && s'.committed == s.committed + {s.nextTx}
    && s'.nextTx == s.nextTx + 1 && s'.log == s.log + [Sent(s.nextTx, r.topic, {r}, true)]
    && Ascending(s'.table) && forall q :: q in s'.table <==> q in s.table && q != r
  }

  lemma CommittedRow(s: State, r: Row, tx: nat, table: seq<Row>)
    requires Ascending(s.table) && r in s.table && s.log != [] && s.log[|s.log| - 1] == Sent(tx, r.topic, {r}, true)
    requires forall k :: 0 <= k < |s.log| - 1 ==> s.log[k].tx < tx
    requires table == Without(s.table, Deleted(s, tx))
    ensures Ascending(table) && forall q :: q in table <==> q in s.table && q != r
  {
    var ids := Deleted(s, tx);
    WithoutMembers(s.table, ids);
    WithoutAscending(s.table, ids);
    assert s.log[|s.log| - 1] in s.log;
    forall e | e in s.log && e.tx == tx ensures e.rows == {r} {
      var k :| 0 <= k < |s.log| && s.log[k] == e;
    }
    forall q | q in s.table ensures q.id in ids <==> q == r {
      if q.id == r.id {
        SameIdSameRow(s.table, q, r);
      }
    }
  }

  /** Replica 0 begins a transaction and comes to hold row r only. */
  lemma SelectRow(reach: Reach, rows: seq<Row>, s: State, r: Row) returns (s': State)
    requires Closed(reach) && reach(rows, s)
    requires Ascending(s.table) && AllIdle(s) && r in s.table && forall q :: q in s.table && q.topic == r.topic ==> q == r
    ensures reach(rows, s')
    ensures s' == s.(replicas := s.replicas[0 := Publishing(s.nextTx, [r], {})], nextTx := s.nextTx + 1)
  {
    OnlyRowOfTopic(s.table, r);
    var l := HoldFirst(reach, rows, s, 0, OtherTopics(s.table, r.topic));
    s' := FetchedStep(reach, rows, l, 0);
    assert s'.replicas == s.replicas[0 := Publishing(s.nextTx, [r], {})];
  }

  /** Replica 0 publishes the row it holds and commits. */
  lemma SendRow(reach: Reach, rows: seq<Row>, s: State, tx: nat, r: Row) returns (s': State)
    requires Closed(reach) && reach(rows, s) && |s.replicas| >= 1 && s.replicas[0] == Publishing(tx, [r], {})
    requires Ascending(s.table) && r in s.table && forall k :: 0 <= k < |s.log| ==> s.log[k].tx < tx
    ensures reach(rows, s')
    ensures s'.replicas == s.replicas[0 := Idle] && s'.seen == s.seen && s'.nextTx == s.nextTx
    ensures s'.committed == s.committed + {tx} && s'.log == s.log + [Sent(tx, r.topic, {r}, true)]
    ensures Ascending(s'.table) && forall q :: q in s'.table <==> q in s.table && q != r
  {
    var p := PublishStep(reach, rows, s, 0, tx, r);
    s' := CommitStep(reach, rows, p, 0, tx, r);
    CommittedRow(p, r, tx, s'.table);
    assert s'.replicas == s.replicas[0 := Idle];
  }

  lemma FlushRow(reach: Reach, rows: seq<Row>, s: State, r: Row) returns (s': State)
    requires Closed(reach) && reach(rows, s)
    requires Ascending(s.table) && AllIdle(s) && r in s.table && forall q :: q in s.table && q.topic == r.topic ==> q == r
    requires forall k :: 0 <= k < |s.log| ==> s.log[k].tx < s.nextTx
    ensures reach(rows, s') && RowFlushed(s, s', r)
  {
    var selected := SelectRow(reach, rows, s, r);
    s' := SendRow(reach, rows, selected, s.nextTx, r);
    assert s'.replicas == s.replicas;
  }

  /** Every row of topic t was flushed by itself as soon as it was visible. */
  ghost predicate Flushed(s: State, rows: seq<Row>, t: Topic) {
    && Ascending(s.table) && AllIdle(s)
    && (forall q :: q in s.seen <==> q in rows)
    && (forall q :: q in s.table ==> q in rows && q.topic != t)
    && |s.log| == |RowsOf(rows, t)|
    && forall k :: 0 <= k < |s.log| ==> Durable(s, s.log[k]) && s.log[k].rows == {RowsOf(rows, t)[k]} && s.log[k].tx < s.nextTx
  }

  /** A run in which the given rows become visible and each row of topic t is published at once. */
  lemma {:induction false} EagerRun(reach: Reach, start: State, rows: seq<Row>, t: Topic) returns (s: State)
    requires Closed(reach) && reach([], start)
    requires Init(start) && start.table == [] && |start.replicas| >= 1 && UniqueIds(rows)
    ensures reach(rows, s) && Flushed(s, rows, t)
  {
    if rows == [] {
      s := start;
    } else {
      s := EagerRun(reach, start, rows[..|rows| - 1], t);
      s := EagerStep(reach, s, rows, t);
    }
  }

  lemma EagerStep(reach: Reach, s: State, rows: seq<Row>, t: Topic) returns (s'': State)
    requires rows != [] && UniqueIds(rows) && Closed(reach) && reach(rows[..|rows| - 1], s)
    requires Flushed(s, rows[..|rows| - 1], t)
    ensures reach(rows, s'') && Flushed(s'', rows, t)
  {
    var init, r := rows[..|rows| - 1], rows[|rows| - 1];
    forall q | q in s.seen ensures q.id != r.id {
      var i :| 0 <= i < |init| && init[i] == q;
      assert rows[i] == q;
    }
    assert rows == init + [r];
    var s' := InsertStep(reach, init, s, r);
    s'' := s';
    if r.topic == t {
      s'' := FlushRow(reach, rows, s', r);
      FlushedNext(s, s', s'', rows, t);
    }
  }

  lemma FlushedNext(s: State, s': State, s'': State, rows: seq<Row>, t: Topic)
    requires rows != [] && Flushed(s, rows[..|rows| - 1], t) && rows[|rows| - 1].topic == t
    requires s' == s.(table := s'.table, seen := s.seen + {rows[|rows| - 1]})
    requires forall q :: q in s'.table <==> q in s.table || q == rows[|rows| - 1]
    requires RowFlushed(s', s'', rows[|rows| - 1])
    ensures Flushed(s'', rows, t)
  {
    var init, r := rows[..|rows| - 1], rows[|rows| - 1];
    assert rows == init + [r];
    forall k | 0 <= k < |s''.log|
      ensures Durable(s'', s''.log[k]) && s''.log[k].rows == {RowsOf(rows, t)[k]} && s''.log[k].tx < s''.nextTx
    {
      if k < |s.log| {
        assert Durable(s, s.log[k]) && s''.log[k] == s.log[k];
      }
    }
  }

  /** Some run from the initial state inserts these rows and ends in s. */
  ghost predicate Reaches(start: State, rows: seq<Row>, s: State) {
    exists states: seq<State>, actions: seq<Action> ::
      Run(states, actions) && states[0] == start && states[|actions|] == s && Inserted(actions) == rows
  }

  lemma ReachesIsClosed(start: State)
    ensures Closed((rows, s) => Reaches(start, rows, s))
  {
    var reach := (rows, s) => Reaches(start, rows, s);
    forall rows, s, s', a | reach(rows, s) && Next(s, s', a) ensures reach(rows + InsertedBy(a), s') {
      var states: seq<State>, actions: seq<Action> :|
        Run(states, actions) && states[0] == start && states[|actions|] == s && Inserted(actions) == rows;
      ExtendRun(states, actions, s', a);
      assert Inserted(actions + [a]) == rows + InsertedBy(a) by { assert (actions + [a])[..|actions|] == actions; }
      assert (states + [s'])[|actions + [a]|] == s';
      assert Reaches(start, rows + InsertedBy(a), s');
    }
  }

  lemma ExtendRun(states: seq<State>, actions: seq<Action>, s': State, a: Action)
    requires Run(states, actions) && Next(states[|actions|], s', a)
    ensures Run(states + [s'], actions + [a])
  {
  }

  /** In particular a run of two flushers comes to hold one topic in both. */
  lemma LateRowRun(r: Row, q: Row) returns (states: seq<State>, actions: seq<Action>)
    requires r.topic == q.topic && r.id < q.id
    ensures Run(states, actions) && Inserted(actions) == [r]
    ensures var s := states[|actions|]; |s.replicas| == 2 && HeldBy(s.replicas[0]) == [q] && HeldBy(s.replicas[1]) == [r]
  {
    var start := State([q], {q}, [Idle, Idle], [], {}, 0);
    StartIsReached(start);
    ReachesIsClosed(start);
    var s := LateRowSharesTopic((rows, s) => Reaches(start, rows, s), r, q);
    states, actions :| Run(states, actions) && states[0] == start && states[|actions|] == s && Inserted(actions) == [r];
  }

  lemma StartIsReached(start: State)
    requires Init(start)
    ensures Reaches(start, [], start)
  {
    assert Run([start], []) && [start][0] == start && Inserted([]) == [];
  }

  /** Every run of n flushers in which the rows become visible in this order publishes topic t in id order. */
  ghost predicate KeepsOrder(n: nat, rows: seq<Row>, t: Topic) {
    forall states: seq<State>, actions: seq<Action> ::
      Run(states, actions) && |states[0].replicas| == n && states[0].table == [] && Inserted(actions) == rows
      ==> OrderedLog(states[|actions|], t)
  }

  /** A run that publishes a topic out of order when its rows do not become visible in id order. */
  lemma LateRowBreaksOrder(n: nat, rows: seq<Row>, t: Topic)
    requires n >= 1 && UniqueIds(rows) && !Ascending(RowsOf(rows, t))
    ensures !KeepsOrder(n, rows, t)
  {
    var i, j :| 0 <= i < j < |RowsOf(rows, t)| && RowsOf(rows, t)[i].id >= RowsOf(rows, t)[j].id;
    var start := State([], {}, seq(n, _ => Idle), [], {}, 0);
    StartIsReached(start);
    ReachesIsClosed(start);
    var s := EagerRun((rows, s) => Reaches(start, rows, s), start, rows, t);
    var states: seq<State>, actions: seq<Action> :|
      Run(states, actions) && states[0] == start && states[|actions|] == s && Inserted(actions) == rows;
    RowsOfMembers(rows, t);
    assert RowsOf(rows, t)[i] in RowsOf(rows, t) && RowsOf(rows, t)[j] in RowsOf(rows, t);
    assert RowsOf(rows, t)[i] in s.log[i].rows && RowsOf(rows, t)[j] in s.log[j].rows;
    assert !IdsInOrder(s, s.log[i], s.log[j], t);
  }

  /**
   Exactly when the order of a topic is kept, topic by topic: every run of any number of flushers in which
   the rows become visible in the given order publishes the topic in id order if and only if the rows of
   that topic become visible in id order. Late rows of other topics do not matter.
   */
  lemma OrderKeptIff(n: nat, rows: seq<Row>, t: Topic)
    requires n >= 1 && UniqueIds(rows)
    ensures KeepsOrder(n, rows, t) <==> Ascending(RowsOf(rows, t))
  {
    if Ascending(RowsOf(rows, t)) {
      forall states: seq<State>, actions: seq<Action>
        | Run(states, actions) && |states[0].replicas| == n && states[0].table == [] && Inserted(actions) == rows
        ensures OrderedLog(states[|actions|], t)
      {
        AscendingRowsAreInOrder(states, actions, t);
        DurablePublishesInOrder(states, actions, |actions|, t);
      }
    } else {
      LateRowBreaksOrder(n, rows, t);
    }
  }

  /** In particular, the order of all topics is kept if and only if the rows of each become visible in id order. */
  lemma AllOrdersKeptIff(n: nat, rows: seq<Row>)
    requires n >= 1 && UniqueIds(rows)
    ensures (forall t :: KeepsOrder(n, rows, t)) <==> forall t :: Ascending(RowsOf(rows, t))
  {
    if forall t :: KeepsOrder(n, rows, t) {
      forall t ensures Ascending(RowsOf(rows, t)) {
        assert KeepsOrder(n, rows, t);
        OrderKeptIff(n, rows, t);
      }
    } else {
      var t :| !KeepsOrder(n, rows, t);
      OrderKeptIff(n, rows, t);
    }
  }
}

/**
 Several flushers on one outbox table. Each step is a transaction of one replica with its own list of
 failed topics and its own limit; replicas interleave at begin, row lock, publish, commit and
 rollback, and inserts by other sessions come in between. They share nothing but the row locks.

 A fetch scans its snapshot in id order and locks each row it takes: a row that another transaction
 deleted meanwhile is skipped, a row that another transaction holds makes the fetch wait, which here
 means that the lock step is not enabled.
 */
module OutboxReplicas {
  import opened OutboxRows

  datatype Phase =
    | Idle
    /** Locking: todo is the part of the snapshot still to be scanned, held the rows locked so far. */
    | Fetching(tx: nat, todo: seq<Row>, held: seq<Row>)
    /** Publishing the held rows, one request per topic; answered holds the topics already sent. */
    | Publishing(tx: nat, held: seq<Row>, answered: set<Topic>)

  /** One publish request: the rows of one topic held by transaction tx, and whether it was confirmed. */
  datatype Sent = Sent(tx: nat, topic: Topic, rows: set<Row>, ok: bool)

  /** seen holds every row inserted so far, whether or not it is still in the table. */
  datatype State = State(
    table: seq<Row>,
    seen: set<Row>,
    replicas: seq<Phase>,
    log: seq<Sent>,
    committed: set<nat>,
    nextTx: nat)

  function HeldBy(p: Phase): seq<Row> {
    if p.Idle? then [] else p.held
  }

  // ----- Steps -----

  ghost predicate Init(s: State) {
    && Ascending(s.table)
    && s.seen == (set r | r in s.table)
    && (forall i :: 0 <= i < |s.replicas| ==> s.replicas[i].Idle?)
    && s.log == [] && s.committed == {} && s.nextTx == 0
  }

  ghost predicate Locked(s: State, r: Row) {
    exists i :: 0 <= i < |s.replicas| && r in HeldBy(s.replicas[i])
  }

  /** Another session commits an insert. Ids are never reused, but a row may become visible after rows with higher ids. */
  ghost predicate Insert(s: State, s': State, r: Row) {
    && Ascending(s'.table)
    && (exists k :: 0 <= k <= |s.table| && s'.table == s.table[..k] + [r] + s.table[k..])
    && (forall q :: q in s.seen ==> q.id != r.id)
    && s' == s.(table := s'.table, seen := s.seen + {r})
  }

  ghost predicate Begin(s: State, s': State, i: nat, failed: set<Topic>) {
    && i < |s.replicas| && s.replicas[i].Idle?
    && s' == s.(replicas := s.replicas[i := Fetching(s.nextTx, Outside(s.table, failed), [])], nextTx := s.nextTx + 1)
  }

  ghost predicate Lock(s: State, s': State, i: nat, limit: nat) {
    && i < |s.replicas| && s.replicas[i].Fetching? && s.replicas[i].todo != []
    && var p := s.replicas[i];
    && var r := p.todo[0];
    && |p.held| < limit
    && (if r in s.table
        then !Locked(s, r) && s' == s.(replicas := s.replicas[i := p.(todo := p.todo[1..], held := p.held + [r])])
        else s' == s.(replicas := s.replicas[i := p.(todo := p.todo[1..])]))
  }

  ghost predicate Fetched(s: State, s': State, i: nat, limit: nat) {
    && i < |s.replicas| && s.replicas[i].Fetching?
    && var p := s.replicas[i];
    && (p.todo == [] || |p.held| >= limit)
    && s' == s.(replicas := s.replicas[i := Publishing(p.tx, p.held, {})])
  }

  ghost predicate Publish(s: State, s': State, i: nat, topic: Topic, ok: bool) {
    && i < |s.replicas| && s.replicas[i].Publishing?
    && var p := s.replicas[i];
    && topic !in p.answered
    && RowsOf(p.held, topic) != []
    && s' == s.(replicas := s.replicas[i := p.(answered := p.answered + {topic})],
                log := s.log + [Sent(p.tx, topic, HeldOf(p.held, topic), ok)])
  }

  function HeldOf(held: seq<Row>, topic: Topic): set<Row> {
    set r | r in held && r.topic == topic
  }

  /** The ids the transaction deletes: the rows of its confirmed requests. */
  ghost function Deleted(s: State, tx: nat): set<int> {
    set e, r | e in s.log && e.tx == tx && e.ok && r in e.rows :: r.id
  }

  ghost predicate Commit(s: State, s': State, i: nat) {
    && i < |s.replicas| && s.replicas[i].Publishing?
    && var p := s.replicas[i];
    && (forall r :: r in p.held ==> r.topic in p.answered)
    && s' == s.(table := Without(s.table, Deleted(s, p.tx)),
                replicas := s.replicas[i := Idle],
                committed := s.committed + {p.tx})
  }

  /** An error or a crash at any point releases the locks and keeps the rows. */
  ghost predicate Rollback(s: State, s': State, i: nat) {
    && i < |s.replicas|
    && s' == s.(replicas := s.replicas[i := Idle])
  }

  datatype Action =
    | DoInsert(r: Row)
    | DoBegin(i: nat, failed: set<Topic>)
    | DoLock(i: nat, limit: nat)
    | DoFetched(i: nat, limit: nat)
    | DoPublish(i: nat, topic: Topic, ok: bool)
    | DoCommit(i: nat)
    | DoRollback(i: nat)

  ghost predicate Next(s: State, s': State, a: Action) {
    match a
    case DoInsert(r) => Insert(s, s', r)
    case DoBegin(i, failed) => Begin(s, s', i, failed)
    case DoLock(i, limit) => Lock(s, s', i, limit)
    case DoFetched(i, limit) => Fetched(s, s', i, limit)
    case DoPublish(i, topic, ok) => Publish(s, s', i, topic, ok)
    case DoCommit(i) => Commit(s, s', i)
    case DoRollback(i) => Rollback(s, s', i)
  }

  ghost predicate Run(states: seq<State>, actions: seq<Action>) {
    && |states| == |actions| + 1
    && Init(states[0])
    && forall k :: 0 <= k < |actions| ==> Next(states[k], states[k + 1], actions[k])
  }

  // ----- What holds whenever rows become visible -----

  /** A scan goes through known rows in id order, behind the rows it holds. */
  ghost predicate ScanOk(seen: set<Row>, held: seq<Row>, todo: seq<Row>) {
    && Ascending(todo)
    && (forall t :: t in todo ==> t in seen)
    && (forall h, t :: h in held && t in todo ==> h.id < t.id)
  }

  ghost predicate ReplicaOk(s: State, p: Phase) {
    && (!p.Idle? ==> p.tx < s.nextTx && p.tx !in s.committed)
    && (forall r :: r in HeldBy(p) ==> r in s.table)
    && (p.Fetching? ==> ScanOk(s.seen, p.held, p.todo))
  }

  ghost predicate Separate(p: Phase, q: Phase) {
    && (!p.Idle? && !q.Idle? ==> p.tx != q.tx)
    && (forall r :: r in HeldBy(p) ==> r !in HeldBy(q))
  }

  ghost predicate TableOk(s: State) {
    && Ascending(s.table)
    && (forall r :: r in s.table ==> r in s.seen)
    && (forall r, q :: r in s.seen && q in s.seen && r.id == q.id ==> r == q)
    && (forall tx :: tx in s.committed ==> tx < s.nextTx)
  }

  ghost predicate ReplicasOk(s: State) {
    && (forall i :: 0 <= i < |s.replicas| ==> ReplicaOk(s, s.replicas[i]))
    && (forall i, j :: 0 <= i < |s.replicas| && 0 <= j < |s.replicas| && i != j ==> Separate(s.replicas[i], s.replicas[j]))
  }

  /** A request of a transaction still in progress carries exactly what the transaction holds of its topic. */
  ghost predicate SentByHolder(e: Sent, p: Phase) {
    !p.Idle? && p.tx == e.tx ==> p.Publishing? && e.topic in p.answered && e.rows == HeldOf(p.held, e.topic)
  }

  ghost predicate Durable(s: State, e: Sent) {
    e.ok && e.tx in s.committed
  }

  ghost predicate Active(s: State, e: Sent) {
    exists i :: 0 <= i < |s.replicas| && !s.replicas[i].Idle? && s.replicas[i].tx == e.tx
  }

  /** The rows of a durable request have left the table. */
  ghost predicate EntryOk(s: State, e: Sent) {
    && e.tx < s.nextTx
    && e.rows != {}
    && (forall r :: r in e.rows ==> r.topic == e.topic && r in s.seen)
    && (forall i :: 0 <= i < |s.replicas| ==> SentByHolder(e, s.replicas[i]))
    && (Durable(s, e) ==> forall r :: r in e.rows ==> r !in s.table)
  }

  /** A row is sent again only after the transaction that sent it before was rolled back or refused. */
  ghost predicate PairOk(s: State, a: Sent, b: Sent) {
    forall r :: r in a.rows && r in b.rows ==> !Active(s, a) && !Durable(s, a)
  }

  ghost predicate LogOk(s: State) {
    && (forall k :: 0 <= k < |s.log| ==> EntryOk(s, s.log[k]))
    && (forall a, b :: 0 <= a < b < |s.log| ==> PairOk(s, s.log[a], s.log[b]))
  }

  /** Every inserted row is either still queued or durably published. */
  ghost predicate NothingLost(s: State) {
    forall r :: r in s.seen && r !in s.table ==> exists k :: 0 <= k < |s.log| && Durable(s, s.log[k]) && r in s.log[k].rows
  }

  ghost predicate Inv(s: State) {
    TableOk(s) && ReplicasOk(s) && LogOk(s) && NothingLost(s)
  }

  // ----- Each step keeps the invariant -----

  lemma InitInv(s: State)
    requires Init(s)
    ensures Inv(s)
  {
    forall r, q | r in s.table && q in s.table && r.id == q.id ensures r == q {
      SameIdSameRow(s.table, r, q);
    }
  }

  lemma InsertMembers(s: State, s': State, r: Row)
    requires Insert(s, s', r)
    ensures forall q :: q in s'.table <==> q in s.table || q == r
  {
    var k :| 0 <= k <= |s.table| && s'.table == s.table[..k] + [r] + s.table[k..];
    assert s.table == s.table[..k] + s.table[k..];
  }

  lemma InsertInv(s: State, s': State, r: Row)
    requires Inv(s) && Insert(s, s', r)
    ensures Inv(s')
  {
    InsertMembers(s, s', r);
    forall i | 0 <= i < |s'.replicas|
      ensures ReplicaOk(s', s'.replicas[i])
    {
      assert ReplicaOk(s, s.replicas[i]);
    }
    forall e | 0 <= e < |s'.log|
      ensures EntryOk(s', s'.log[e])
    {
      assert EntryOk(s, s.log[e]);
    }
    forall a, b | 0 <= a < b < |s'.log|
      ensures PairOk(s', s'.log[a], s'.log[b])
    {
      assert PairOk(s, s.log[a], s.log[b]);
    }
    NothingLostLater(s, s');
  }

  /** What was durably published stays so. */
  lemma NothingLostLater(s: State, s': State)
    requires NothingLost(s)
    requires s.committed <= s'.committed && s.log <= s'.log
    requires forall q :: q in s'.seen && q !in s'.table ==> q in s.seen && q !in s.table
    ensures NothingLost(s')
  {
    forall q | q in s'.seen && q !in s'.table
      ensures exists k :: 0 <= k < |s'.log| && Durable(s', s'.log[k]) && q in s'.log[k].rows
    {
      var e :| 0 <= e < |s.log| && Durable(s, s.log[e]) && q in s.log[e].rows;
      assert s'.log[e] == s.log[e] && Durable(s', s'.log[e]);
    }
  }

  /** What a step that changes neither table nor log has to keep about the one replica it touches. */
  lemma ReplicaStepInv(s: State, s': State, i: nat)
    requires Inv(s) && i < |s.replicas| && |s'.replicas| == |s.replicas|
    requires s' == s.(replicas := s.replicas[i := s'.replicas[i]], nextTx := s'.nextTx) && s.nextTx <= s'.nextTx
    requires ReplicaOk(s', s'.replicas[i])
    requires forall j :: 0 <= j < |s.replicas| && j != i ==> Separate(s'.replicas[i], s.replicas[j])
    requires forall k :: 0 <= k < |s.log| ==> SentByHolder(s.log[k], s'.replicas[i])
    requires !s'.replicas[i].Idle? ==>
               || s'.replicas[i].tx == s.nextTx
               || (!s.replicas[i].Idle? && s'.replicas[i].tx == s.replicas[i].tx)
    ensures Inv(s')
  {
    forall j | 0 <= j < |s'.replicas|
      ensures ReplicaOk(s', s'.replicas[j])
    {
      assert ReplicaOk(s, s.replicas[j]);
    }
    forall j, l | 0 <= j < |s'.replicas| && 0 <= l < |s'.replicas| && j != l
      ensures Separate(s'.replicas[j], s'.replicas[l])
    {
      if j != i && l != i {
        assert Separate(s.replicas[j], s.replicas[l]);
      }
    }
    forall e | 0 <= e < |s'.log|
      ensures EntryOk(s', s'.log[e])
    {
      assert EntryOk(s, s.log[e]);
    }
    forall a, b | 0 <= a < b < |s'.log|
      ensures PairOk(s', s'.log[a], s'.log[b])
    {
      assert PairOk(s, s.log[a], s.log[b]) && EntryOk(s, s.log[a]);
      if j :| 0 <= j < |s'.replicas| && !s'.replicas[j].Idle? && s'.replicas[j].tx == s'.log[a].tx {
        assert Active(s, s.log[a]) by {
          assert !s.replicas[j].Idle? && s.replicas[j].tx == s.log[a].tx;
        }
      }
    }
    NothingLostLater(s, s');
  }

  lemma BeginInv(s: State, s': State, i: nat, failed: set<Topic>)
    requires Inv(s) && Begin(s, s', i, failed)
    ensures Inv(s')
  {
    OutsideAscending(s.table, failed);
    OutsideMembers(s.table, failed);
    forall j | 0 <= j < |s.replicas| && j != i
      ensures Separate(s'.replicas[i], s.replicas[j])
    {
      assert ReplicaOk(s, s.replicas[j]);
    }
    forall k | 0 <= k < |s.log|
      ensures SentByHolder(s.log[k], s'.replicas[i])
    {
      assert EntryOk(s, s.log[k]);
    }
    ReplicaStepInv(s, s', i);
  }

  lemma RestFollows(todo: seq<Row>)
    requires todo != [] && Ascending(todo)
    ensures Ascending(todo[1..])
    ensures forall t :: t in todo[1..] ==> todo[0].id < t.id
    ensures forall t :: t in todo <==> t == todo[0] || t in todo[1..]
  {
    var rest := todo[1..];
    assert forall k :: 0 <= k < |rest| ==> rest[k] == todo[k + 1];
    assert todo == [todo[0]] + rest;
  }

  lemma LockInv(s: State, s': State, i: nat, limit: nat)
    requires Inv(s) && Lock(s, s', i, limit)
    ensures Inv(s')
  {
    var p, p' := s.replicas[i], s'.replicas[i];
    assert ReplicaOk(s, p);
    RestFollows(p.todo);
    forall j | 0 <= j < |s.replicas| && j != i
      ensures Separate(p', s.replicas[j])
    {
      assert Separate(p, s.replicas[j]) && Separate(s.replicas[j], p);
      assert p.todo[0] in s.table ==> !Locked(s, p.todo[0]);
    }
    forall k | 0 <= k < |s.log|
      ensures SentByHolder(s.log[k], p')
    {
      assert EntryOk(s, s.log[k]) && SentByHolder(s.log[k], p);
    }
    ReplicaStepInv(s, s', i);
  }

  lemma FetchedInv(s: State, s': State, i: nat, limit: nat)
    requires Inv(s) && Fetched(s, s', i, limit)
    ensures Inv(s')
  {
    var p, p' := s.replicas[i], s'.replicas[i];
    assert ReplicaOk(s, p);
    forall j | 0 <= j < |s.replicas| && j != i
      ensures Separate(p', s.replicas[j])
    {
      assert Separate(p, s.replicas[j]);
    }
    forall k | 0 <= k < |s.log|
      ensures SentByHolder(s.log[k], p')
    {
      assert EntryOk(s, s.log[k]) && SentByHolder(s.log[k], p);
    }
    ReplicaStepInv(s, s', i);
  }

  lemma RollbackInv(s: State, s': State, i: nat)
    requires Inv(s) && Rollback(s, s', i)
    ensures Inv(s')
  {
    ReplicaStepInv(s, s', i);
  }

  lemma PublishedEntry(s: State, i: nat, topic: Topic, ok: bool, s': State)
    requires Inv(s) && Publish(s, s', i, topic, ok)
    ensures EntryOk(s', Sent(s.replicas[i].tx, topic, HeldOf(s.replicas[i].held, topic), ok))
  {
    var p := s.replicas[i];
    var e := Sent(p.tx, topic, HeldOf(p.held, topic), ok);
    assert ReplicaOk(s, p);
    RowsOfMembers(p.held, topic);
    assert RowsOf(p.held, topic)[0] in RowsOf(p.held, topic);
    assert RowsOf(p.held, topic)[0] in e.rows;
    forall j | 0 <= j < |s'.replicas|
      ensures SentByHolder(e, s'.replicas[j])
    {
      if j != i {
        assert Separate(p, s.replicas[j]);
      }
    }
  }

  lemma PublishOldEntry(s: State, s': State, i: nat, topic: Topic, ok: bool, k: nat)
    requires Inv(s) && Publish(s, s', i, topic, ok) && k < |s.log|
    ensures EntryOk(s', s.log[k])
  {
    var e := s.log[k];
    assert EntryOk(s, e);
    forall j | 0 <= j < |s'.replicas|
      ensures SentByHolder(e, s'.replicas[j])
    {
      assert SentByHolder(e, s.replicas[j]);
    }
  }

  lemma PublishInv(s: State, s': State, i: nat, topic: Topic, ok: bool)
    requires Inv(s) && Publish(s, s', i, topic, ok)
    ensures Inv(s')
  {
    var p := s.replicas[i];
    var e := Sent(p.tx, topic, HeldOf(p.held, topic), ok);
    forall j | 0 <= j < |s'.replicas|
      ensures ReplicaOk(s', s'.replicas[j])
    {
      assert ReplicaOk(s, s.replicas[j]);
    }
    forall j, l | 0 <= j < |s'.replicas| && 0 <= l < |s'.replicas| && j != l
      ensures Separate(s'.replicas[j], s'.replicas[l])
    {
      assert Separate(s.replicas[j], s.replicas[l]);
    }
    forall k | 0 <= k < |s'.log|
      ensures EntryOk(s', s'.log[k])
    {
      if k < |s.log| {
        PublishOldEntry(s, s', i, topic, ok, k);
      } else {
        PublishedEntry(s, i, topic, ok, s');
      }
    }
    forall a, b | 0 <= a < b < |s'.log|
      ensures PairOk(s', s'.log[a], s'.log[b])
    {
      PublishPair(s, s', i, topic, ok, a, b);
    }
    NothingLostLater(s, s');
  }

  /** The rows of a new request are locked by its own transaction, so no other has them in progress or is done with them. */
  lemma PublishPair(s: State, s': State, i: nat, topic: Topic, ok: bool, a: nat, b: nat)
    requires Inv(s) && Publish(s, s', i, topic, ok) && a < b < |s'.log|
    ensures PairOk(s', s'.log[a], s'.log[b])
  {
    var p := s.replicas[i];
    assert EntryOk(s, s.log[a]) && ReplicaOk(s, p);
    if b < |s.log| {
      assert PairOk(s, s.log[a], s.log[b]);
    }
    if j :| 0 <= j < |s'.replicas| && !s'.replicas[j].Idle? && s'.replicas[j].tx == s'.log[a].tx {
      assert !s.replicas[j].Idle? && s.replicas[j].tx == s.log[a].tx;
      assert SentByHolder(s.log[a], s.replicas[j]);
      if j != i {
        assert Separate(p, s.replicas[j]);
      }
    }
  }

  /** A commit deletes exactly the held rows of its confirmed topics. */
  lemma DeletedRow(s: State, i: nat, q: Row)
    requires Inv(s) && i < |s.replicas| && s.replicas[i].Publishing? && q in s.table
    ensures q.id in Deleted(s, s.replicas[i].tx) <==>
            q in s.replicas[i].held && exists k :: 0 <= k < |s.log| && s.log[k].tx == s.replicas[i].tx && s.log[k].ok && q in s.log[k].rows
  {
    var p := s.replicas[i];
    assert ReplicaOk(s, p);
    if e, r :| e in s.log && e.tx == p.tx && e.ok && r in e.rows && r.id == q.id {
      var k :| 0 <= k < |s.log| && s.log[k] == e;
      assert EntryOk(s, s.log[k]) && SentByHolder(e, p);
      SameIdSameRow(s.table, r, q);
    }
    if k :| 0 <= k < |s.log| && s.log[k].tx == p.tx && s.log[k].ok && q in s.log[k].rows {
      assert s.log[k] in s.log;
    }
  }

  lemma CommitReplica(s: State, s': State, i: nat, j: nat)
    requires Inv(s) && Commit(s, s', i) && j < |s.replicas| && j != i
    ensures ReplicaOk(s', s.replicas[j])
  {
    var p, other := s.replicas[i], s.replicas[j];
    assert ReplicaOk(s, other) && Separate(p, other) && Separate(other, p);
    WithoutMembers(s.table, Deleted(s, p.tx));
    forall r | r in HeldBy(other)
      ensures r in s'.table
    {
      DeletedRow(s, i, r);
    }
  }

  lemma CommitEntry(s: State, s': State, i: nat, k: nat)
    requires Inv(s) && Commit(s, s', i) && k < |s.log|
    ensures EntryOk(s', s.log[k])
  {
    var p, e := s.replicas[i], s.log[k];
    assert EntryOk(s, e) && ReplicaOk(s, p);
    assert forall j :: 0 <= j < |s'.replicas| ==> SentByHolder(e, s'.replicas[j]) by {
      assert forall j :: 0 <= j < |s.replicas| ==> SentByHolder(e, s.replicas[j]);
    }
    WithoutMembers(s.table, Deleted(s, p.tx));
    forall r | Durable(s', e) && r in e.rows
      ensures r !in s'.table
    {
      if e.tx == p.tx && r in s.table {
        assert SentByHolder(e, p);
        DeletedRow(s, i, r);
      }
    }
  }

  lemma CommitPair(s: State, s': State, i: nat, a: nat, b: nat)
    requires Inv(s) && Commit(s, s', i) && a < b < |s.log|
    ensures PairOk(s', s.log[a], s.log[b])
  {
    assert PairOk(s, s.log[a], s.log[b]);
    if s.log[a].tx == s.replicas[i].tx {
      assert Active(s, s.log[a]);
    }
    if j :| 0 <= j < |s'.replicas| && !s'.replicas[j].Idle? && s'.replicas[j].tx == s.log[a].tx {
      assert !s.replicas[j].Idle? && s.replicas[j].tx == s.log[a].tx;
    }
  }

  lemma CommitReplicas(s: State, s': State, i: nat)
    requires Inv(s) && Commit(s, s', i)
    ensures ReplicasOk(s')
  {
    forall j | 0 <= j < |s'.replicas| ensures ReplicaOk(s', s'.replicas[j]) {
      if j != i {
        CommitReplica(s, s', i, j);
      }
    }
    forall j, l | 0 <= j < |s'.replicas| && 0 <= l < |s'.replicas| && j != l
      ensures Separate(s'.replicas[j], s'.replicas[l])
    {
      assert Separate(s.replicas[j], s.replicas[l]);
    }
  }

  lemma CommitLog(s: State, s': State, i: nat)
    requires Inv(s) && Commit(s, s', i)
    ensures LogOk(s')
  {
    forall k | 0 <= k < |s'.log| ensures EntryOk(s', s'.log[k]) { CommitEntry(s, s', i, k); }
    forall a, b | 0 <= a < b < |s'.log| ensures PairOk(s', s'.log[a], s'.log[b]) { CommitPair(s, s', i, a, b); }
  }

  lemma CommitInv(s: State, s': State, i: nat)
    requires Inv(s) && Commit(s, s', i)
    ensures Inv(s')
  {
    var ids := Deleted(s, s.replicas[i].tx);
    WithoutAscending(s.table, ids);
    WithoutMembers(s.table, ids);
    assert ReplicaOk(s, s.replicas[i]);
    CommitReplicas(s, s', i);
    CommitLog(s, s', i);
    forall q | q in s'.seen && q !in s'.table
      ensures exists k :: 0 <= k < |s'.log| && Durable(s', s'.log[k]) && q in s'.log[k].rows
    {
      CommitLosesNothing(s, s', i, q);
    }
  }

  lemma CommitLosesNothing(s: State, s': State, i: nat, q: Row)
    requires Inv(s) && Commit(s, s', i) && q in s.seen && q !in s'.table
    ensures exists k :: 0 <= k < |s'.log| && Durable(s', s'.log[k]) && q in s'.log[k].rows
  {
    WithoutMembers(s.table, Deleted(s, s.replicas[i].tx));
    if q in s.table {
      DeletedRow(s, i, q);
      var k :| 0 <= k < |s.log| && s.log[k].tx == s.replicas[i].tx && s.log[k].ok && q in s.log[k].rows;
      assert Durable(s', s'.log[k]);
    } else {
      var e :| 0 <= e < |s.log| && Durable(s, s.log[e]) && q in s.log[e].rows;
      assert Durable(s', s'.log[e]);
    }
  }

  lemma NextInv(s: State, s': State, a: Action)
    requires Inv(s) && Next(s, s', a)
    ensures Inv(s')
  {
    match a
    case DoInsert(r) => InsertInv(s, s', r);
    case DoBegin(i, failed) => BeginInv(s, s', i, failed);
    case DoLock(i, limit) => LockInv(s, s', i, limit);
    case DoFetched(i, limit) => FetchedInv(s, s', i, limit);
    case DoPublish(i, topic, ok) => PublishInv(s, s', i, topic, ok);
    case DoCommit(i) => CommitInv(s, s', i);
    case DoRollback(i) => RollbackInv(s, s', i);
  }

  lemma {:induction false} RunInv(states: seq<State>, actions: seq<Action>, k: nat)
    requires Run(states, actions) && k < |states|
    ensures Inv(states[k])
  {
    if k == 0 {
      InitInv(states[0]);
    } else {
      RunInv(states, actions, k - 1);
      NextInv(states[k - 1], states[k], actions[k - 1]);
    }
  }

  // ----- What holds in every run -----

  /** Across all replicas, whatever failed in between, no row is durably published twice. */
  lemma NoRowTwice(states: seq<State>, actions: seq<Action>, k: nat, a: nat, b: nat, r: Row)
    requires Run(states, actions) && k < |states|
    requires var s := states[k];
             && a < b < |s.log| && Durable(s, s.log[a]) && Durable(s, s.log[b])
    ensures !(r in states[k].log[a].rows && r in states[k].log[b].rows)
  {
    RunInv(states, actions, k);
    assert PairOk(states[k], states[k].log[a], states[k].log[b]);
  }

  /** Every inserted row is queued or durably published, and never both, whenever it became visible. */
  lemma QueuedOrPublished(states: seq<State>, actions: seq<Action>, k: nat, r: Row)
    requires Run(states, actions) && k < |states| && r in states[k].seen
    ensures var s := states[k];
            r !in s.table <==> exists e :: 0 <= e < |s.log| && Durable(s, s.log[e]) && r in s.log[e].rows
  {
    RunInv(states, actions, k);
    var s := states[k];
    assert forall e :: 0 <= e < |s.log| ==> EntryOk(s, s.log[e]);
  }

  // ----- Waiting for locks never deadlocks -----

  predicate Advances(a: Action) {
    a.DoLock? || a.DoFetched? || a.DoPublish? || a.DoCommit?
  }

  ghost predicate CanAdvance(s: State) {
    exists s', a :: Advances(a) && Next(s, s', a)
  }

  lemma PublishingAdvances(s: State, i: nat)
    requires i < |s.replicas| && s.replicas[i].Publishing?
    ensures CanAdvance(s)
  {
    var p := s.replicas[i];
    if r :| r in p.held && r.topic !in p.answered {
      RowsOfMembers(p.held, r.topic);
      var s' := s.(replicas := s.replicas[i := p.(answered := p.answered + {r.topic})],
                   log := s.log + [Sent(p.tx, r.topic, HeldOf(p.held, r.topic), true)]);
      assert Next(s, s', DoPublish(i, r.topic, true));
    } else {
      var s' := s.(table := Without(s.table, Deleted(s, p.tx)), replicas := s.replicas[i := Idle], committed := s.committed + {p.tx});
      assert Next(s, s', DoCommit(i));
    }
  }

  /** A fetch can go on unless the next row of its scan is locked. */
  lemma FetchingAdvances(s: State, i: nat)
    requires i < |s.replicas| && s.replicas[i].Fetching?
    requires s.replicas[i].todo == [] || !Locked(s, s.replicas[i].todo[0])
    ensures CanAdvance(s)
  {
    var p := s.replicas[i];
    if p.todo == [] {
      assert Next(s, s.(replicas := s.replicas[i := Publishing(p.tx, p.held, {})]), DoFetched(i, 0));
    } else {
      var p' := if p.todo[0] in s.table then p.(todo := p.todo[1..], held := p.held + [p.todo[0]]) else p.(todo := p.todo[1..]);
      assert Next(s, s.(replicas := s.replicas[i := p']), DoLock(i, |p.held| + 1));
    }
  }

  /** The replica whose scan has got furthest. */
  lemma {:induction false} Furthest(s: State, n: nat) returns (m: nat)
    requires n <= |s.replicas|
    requires forall i :: 0 <= i < n && !s.replicas[i].Idle? ==> s.replicas[i].Fetching? && s.replicas[i].todo != []
    requires exists i :: 0 <= i < n && !s.replicas[i].Idle?
    ensures m < n && !s.replicas[m].Idle?
    ensures forall i :: 0 <= i < n && !s.replicas[i].Idle? ==> s.replicas[i].todo[0].id <= s.replicas[m].todo[0].id
  {
    if forall i :: 0 <= i < n - 1 ==> s.replicas[i].Idle? {
      m := n - 1;
    } else {
      m := Furthest(s, n - 1);
      if !s.replicas[n - 1].Idle? && s.replicas[m].todo[0].id < s.replicas[n - 1].todo[0].id {
        m := n - 1;
      }
    }
  }

  /**
   As long as some transaction is open, one of them can take a step: locks are taken in id order, so
   the scan that has got furthest waits for nobody.
   */
  lemma NoDeadlock(states: seq<State>, actions: seq<Action>, k: nat)
    requires Run(states, actions) && k < |states|
    requires exists i :: 0 <= i < |states[k].replicas| && !states[k].replicas[i].Idle?
    ensures CanAdvance(states[k])
  {
    RunInv(states, actions, k);
    var s := states[k];
    if i :| 0 <= i < |s.replicas| && s.replicas[i].Publishing? {
      PublishingAdvances(s, i);
    } else if i :| 0 <= i < |s.replicas| && s.replicas[i].Fetching? && s.replicas[i].todo == [] {
      FetchingAdvances(s, i);
    } else {
      var m := Furthest(s, |s.replicas|);
      var r := s.replicas[m].todo[0];
      forall j | 0 <= j < |s.replicas|
        ensures r !in HeldBy(s.replicas[j])
      {
        assert ReplicaOk(s, s.replicas[j]);
        if !s.replicas[j].Idle? {
          assert s.replicas[j].todo[0] in s.replicas[j].todo;
        }
      }
      FetchingAdvances(s, m);
    }
  }
}

/**
 The rows of the outbox table and the pure selections made on them: the head of the queue outside
 the failed topics, the rows of one topic, and the split of a selection into one group per topic.

 The lemmas say what a flush step relies on: a selection is prefix-closed in every topic it touches,
 so deleting the rows of a published group removes exactly a prefix of that topic's queue.
 */
module OutboxRows {
  import opened Wrappers

  datatype Topic = Topic(name: string)

  /** The stored options of a row; each may be absent. */
  datatype Options = Options(
    key: Option<string>, idempotencyKey: Option<string>, timestamp: Option<string>, version: Option<int>)

  datatype Row = Row(id: int, topic: Topic, message: seq<int>, options: Options)

  datatype Group = Group(topic: Topic, rows: seq<Row>)

  // ----- Selections -----

  /** Rows are ordered by primary key, without repetition. */
  ghost predicate Ascending(rows: seq<Row>) {
    forall i, j :: 0 <= i < j < |rows| ==> rows[i].id < rows[j].id
  }

  function RowsOf(rows: seq<Row>, topic: Topic): seq<Row> {
    if rows == [] then []
    else
      var rest := RowsOf(rows[..|rows| - 1], topic);
      if rows[|rows| - 1].topic == topic then rest + [rows[|rows| - 1]] else rest
  }

  function Outside(rows: seq<Row>, failed: set<Topic>): seq<Row> {
    if rows == [] then []
    else
      var rest := Outside(rows[..|rows| - 1], failed);
      if rows[|rows| - 1].topic in failed then rest else rest + [rows[|rows| - 1]]
  }

  function Without(rows: seq<Row>, ids: set<int>): seq<Row> {
    if rows == [] then []
    else
      var rest := Without(rows[..|rows| - 1], ids);
      if rows[|rows| - 1].id in ids then rest else rest + [rows[|rows| - 1]]
  }

  /** What a fetch selects: the first limit rows, in id order, of the topics that have not failed. */
  function Selection(rows: seq<Row>, failed: set<Topic>, limit: nat): seq<Row> {
    var open := Outside(rows, failed);
    if |open| <= limit then open else open[..limit]
  }

  function Ids(rows: seq<Row>): set<int> {
    set r | r in rows :: r.id
  }

  // ----- Concatenation and membership -----

  function IdsOf(rows: seq<Row>): seq<int> {
    seq(|rows|, i requires 0 <= i < |rows| => rows[i].id)
  }

  lemma IdsOfMembers(rows: seq<Row>)
    ensures forall id :: id in IdsOf(rows) <==> id in Ids(rows)
  {
    forall id | id in Ids(rows)
      ensures id in IdsOf(rows)
    {
      var r :| r in rows && r.id == id;
      var i :| 0 <= i < |rows| && rows[i] == r;
      assert IdsOf(rows)[i] == id;
    }
  }

  lemma {:induction false} RowsOfConcat(a: seq<Row>, b: seq<Row>, topic: Topic)
    ensures RowsOf(a + b, topic) == RowsOf(a, topic) + RowsOf(b, topic)
  {
    if b == [] {
      assert a + b == a;
    } else {
      assert (a + b)[..|a + b| - 1] == a + b[..|b| - 1];
      RowsOfConcat(a, b[..|b| - 1], topic);
    }
  }

  lemma {:induction false} OutsideConcat(a: seq<Row>, b: seq<Row>, failed: set<Topic>)
    ensures Outside(a + b, failed) == Outside(a, failed) + Outside(b, failed)
  {
    if b == [] {
      assert a + b == a;
    } else {
      assert (a + b)[..|a + b| - 1] == a + b[..|b| - 1];
      OutsideConcat(a, b[..|b| - 1], failed);
    }
  }

  lemma {:induction false} WithoutConcat(a: seq<Row>, b: seq<Row>, ids: set<int>)
    ensures Without(a + b, ids) == Without(a, ids) + Without(b, ids)
  {
    if b == [] {
      assert a + b == a;
    } else {
      assert (a + b)[..|a + b| - 1] == a + b[..|b| - 1];
      WithoutConcat(a, b[..|b| - 1], ids);
    }
  }

  lemma {:induction false} RowsOfMembers(rows: seq<Row>, topic: Topic)
    ensures forall r :: r in RowsOf(rows, topic) <==> r in rows && r.topic == topic
  {
    if rows != [] {
      RowsOfMembers(rows[..|rows| - 1], topic);
      assert rows == rows[..|rows| - 1] + [rows[|rows| - 1]];
    }
  }

  lemma {:induction false} RowsOfNone(rows: seq<Row>, topic: Topic)
    requires forall r :: r in rows ==> r.topic != topic
    ensures RowsOf(rows, topic) == []
  {
    if rows != [] {
      assert rows == rows[..|rows| - 1] + [rows[|rows| - 1]];
      RowsOfNone(rows[..|rows| - 1], topic);
    }
  }

  lemma {:induction false} OutsideMembers(rows: seq<Row>, failed: set<Topic>)
    ensures forall r :: r in Outside(rows, failed) <==> r in rows && r.topic !in failed
  {
    if rows != [] {
      OutsideMembers(rows[..|rows| - 1], failed);
      assert rows == rows[..|rows| - 1] + [rows[|rows| - 1]];
    }
  }

  lemma {:induction false} WithoutMembers(rows: seq<Row>, ids: set<int>)
    ensures forall r :: r in Without(rows, ids) <==> r in rows && r.id !in ids
  {
    if rows != [] {
      WithoutMembers(rows[..|rows| - 1], ids);
      assert rows == rows[..|rows| - 1] + [rows[|rows| - 1]];
    }
  }

  /** Excluding topics leaves the queue of every other topic as it was and empties the excluded ones. */
  lemma {:induction false} RowsOfOutside(rows: seq<Row>, failed: set<Topic>, topic: Topic)
    ensures RowsOf(Outside(rows, failed), topic) == if topic in failed then [] else RowsOf(rows, topic)
  {
    if rows != [] {
      var init, last := rows[..|rows| - 1], rows[|rows| - 1];
      RowsOfOutside(init, failed, topic);
      if last.topic in failed {
        assert Outside(rows, failed) == Outside(init, failed);
      } else {
        RowsOfConcat(Outside(init, failed), [last], topic);
        assert [last][..0] == [];
        assert RowsOf([last], topic) == if last.topic == topic then [last] else [];
      }
    }
  }

  /** Deleting by id and selecting a topic commute. */
  lemma {:induction false} RowsOfWithout(rows: seq<Row>, ids: set<int>, topic: Topic)
    ensures RowsOf(Without(rows, ids), topic) == Without(RowsOf(rows, topic), ids)
  {
    if rows != [] {
      var init, last := rows[..|rows| - 1], rows[|rows| - 1];
      RowsOfWithout(init, ids, topic);
      if last.id !in ids {
        RowsOfConcat(Without(init, ids), [last], topic);
        assert [last][..0] == [];
      }
      if last.topic == topic {
        WithoutConcat(RowsOf(init, topic), [last], ids);
        assert [last][..0] == [];
      }
    }
  }

  lemma {:induction false} WithoutNone(rows: seq<Row>, ids: set<int>)
    requires forall r :: r in rows ==> r.id !in ids
    ensures Without(rows, ids) == rows
  {
    if rows != [] {
      assert rows == rows[..|rows| - 1] + [rows[|rows| - 1]];
      WithoutNone(rows[..|rows| - 1], ids);
    }
  }

  lemma {:induction false} WithoutAll(rows: seq<Row>, ids: set<int>)
    requires forall r :: r in rows ==> r.id in ids
    ensures Without(rows, ids) == []
  {
    if rows != [] {
      assert rows == rows[..|rows| - 1] + [rows[|rows| - 1]];
      WithoutAll(rows[..|rows| - 1], ids);
    }
  }

  /** A deletion keeps the order of what is left. */
  lemma {:induction false} WithoutAscending(rows: seq<Row>, ids: set<int>)
    requires Ascending(rows)
    ensures Ascending(Without(rows, ids))
  {
    if rows != [] {
      var init := rows[..|rows| - 1];
      WithoutAscending(init, ids);
      WithoutMembers(init, ids);
    }
  }

  lemma {:induction false} RowsOfAscending(rows: seq<Row>, topic: Topic)
    requires Ascending(rows)
    ensures Ascending(RowsOf(rows, topic))
  {
    if rows != [] {
      RowsOfAscending(rows[..|rows| - 1], topic);
      RowsOfMembers(rows[..|rows| - 1], topic);
    }
  }

  lemma SameIdSameRow(rows: seq<Row>, a: Row, b: Row)
    requires Ascending(rows) && a in rows && b in rows && a.id == b.id
    ensures a == b
  {
    var i :| 0 <= i < |rows| && rows[i] == a;
    var j :| 0 <= j < |rows| && rows[j] == b;
    assert i == j;
  }

  // ----- Selections are prefix-closed per topic -----

  lemma SelectionMembers(rows: seq<Row>, failed: set<Topic>, limit: nat)
    ensures forall r :: r in Selection(rows, failed, limit) ==> r in rows && r.topic !in failed
  {
    OutsideMembers(rows, failed);
  }

  lemma {:induction false} OutsideAscending(rows: seq<Row>, failed: set<Topic>)
    requires Ascending(rows)
    ensures Ascending(Outside(rows, failed))
  {
    if rows != [] {
      OutsideAscending(rows[..|rows| - 1], failed);
      OutsideMembers(rows[..|rows| - 1], failed);
    }
  }

  lemma FrontMember(rows: seq<Row>, n: nat, j: nat)
    requires n <= |rows| && j < |rows|
    ensures j < n ==> rows[j] in rows[..n]
  {
    if j < n {
      assert rows[..n][j] == rows[j];
    }
  }

  /**
   A selection is the head of the table outside the failed topics: at most limit rows, in id order, and
   no row outside the failed topics precedes a selected one without being selected.
   */
  lemma SelectionIsHead(rows: seq<Row>, failed: set<Topic>, limit: nat)
    requires Ascending(rows)
    ensures var sel := Selection(rows, failed, limit);
      && |sel| <= limit && Ascending(sel)
      && (forall r :: r in sel ==> r in rows && r.topic !in failed)
      && (forall r :: r in rows && r.topic !in failed && r !in sel ==> |sel| == limit && forall q :: q in sel ==> q.id < r.id)
  {
    var out, sel := Outside(rows, failed), Selection(rows, failed, limit);
    OutsideMembers(rows, failed);
    OutsideAscending(rows, failed);
    SelectionMembers(rows, failed, limit);
    forall r | r in rows && r.topic !in failed && r !in sel ensures |sel| == limit && forall q :: q in sel ==> q.id < r.id {
      assert r in out;
      var j :| 0 <= j < |out| && out[j] == r;
      assert sel == out[..|sel|];
      FrontMember(out, |sel|, j);
      forall q | q in sel ensures q.id < r.id {
        var i :| 0 <= i < |sel| && sel[i] == q;
        assert out[i] == q;
      }
    }
  }

  /** A selection takes a prefix of each topic's queue. */
  lemma SelectionIsPrefix(rows: seq<Row>, failed: set<Topic>, limit: nat, topic: Topic)
    requires topic !in failed
    ensures RowsOf(Selection(rows, failed, limit), topic) <= RowsOf(rows, topic)
  {
    var all := Outside(rows, failed);
    var sel := Selection(rows, failed, limit);
    assert all == sel + all[|sel|..];
    RowsOfConcat(sel, all[|sel|..], topic);
    RowsOfOutside(rows, failed, topic);
  }

  // ----- Grouping -----

  /**
   The groups of a selection: each holds all rows of its topic in selection order, every selected row
   has a group, and groups come in the order of their first row (so their topics are distinct).
   */
  ghost predicate IsGrouping(groups: seq<Group>, rows: seq<Row>) {
    && (forall i :: 0 <= i < |groups| ==> groups[i].rows == RowsOf(rows, groups[i].topic) && groups[i].rows != [])
    && (forall i :: 0 <= i < |rows| ==> HasGroup(groups, rows[i].topic))
    && (forall i, j :: 0 <= i < j < |groups| ==>
          groups[i].topic != groups[j].topic && groups[i].rows[0].id < groups[j].rows[0].id)
  }

  ghost predicate HasGroup(groups: seq<Group>, topic: Topic) {
    exists i :: 0 <= i < |groups| && groups[i].topic == topic
  }

  lemma RowsOfNext(rows: seq<Row>, i: nat)
    requires i < |rows|
    ensures forall t :: RowsOf(rows[..i + 1], t) == if rows[i].topic == t then RowsOf(rows[..i], t) + [rows[i]] else RowsOf(rows[..i], t)
  {
    assert rows[..i + 1][..i] == rows[..i];
  }

  /** The groups built from the first i rows, and the index from topic to group. */
  ghost predicate Indexed(groups: seq<Group>, index: map<Topic, nat>, rows: seq<Row>, i: nat)
    requires i <= |rows|
  {
    && (forall g :: 0 <= g < |groups| ==> groups[g].rows == RowsOf(rows[..i], groups[g].topic) && groups[g].rows != [])
    && (forall g, h :: 0 <= g < h < |groups| ==> groups[g].rows[0].id < groups[h].rows[0].id)
    && (forall g, j :: 0 <= g < |groups| && i <= j < |rows| ==> groups[g].rows[0].id < rows[j].id)
    && (forall g :: 0 <= g < |groups| ==> groups[g].topic in index && index[groups[g].topic] == g)
    && (forall t :: t in index ==> index[t] < |groups| && groups[index[t]].topic == t)
    && (forall j :: 0 <= j < i ==> rows[j].topic in index)
  }

  lemma NewGroupRows(groups: seq<Group>, index: map<Topic, nat>, rows: seq<Row>, i: nat)
    requires i < |rows| && Indexed(groups, index, rows, i) && rows[i].topic !in index
    ensures RowsOf(rows[..i + 1], rows[i].topic) == [rows[i]]
    ensures forall g :: 0 <= g < |groups| ==> groups[g].rows == RowsOf(rows[..i + 1], groups[g].topic)
  {
    forall r | r in rows[..i] ensures r.topic != rows[i].topic {
      var j :| 0 <= j < i && rows[j] == r;
    }
    RowsOfNone(rows[..i], rows[i].topic);
    RowsOfNext(rows, i);
  }

  lemma NewGroup(groups: seq<Group>, index: map<Topic, nat>, rows: seq<Row>, i: nat)
    requires Ascending(rows) && i < |rows| && Indexed(groups, index, rows, i) && rows[i].topic !in index
    ensures Indexed(groups + [Group(rows[i].topic, [rows[i]])], index[rows[i].topic := |groups|], rows, i + 1)
  {
    NewGroupRows(groups, index, rows, i);
  }

  lemma LargerGroupRows(groups: seq<Group>, index: map<Topic, nat>, rows: seq<Row>, i: nat)
    requires i < |rows| && Indexed(groups, index, rows, i) && rows[i].topic in index
    ensures var g := index[rows[i].topic];
            var groups' := groups[g := groups[g].(rows := groups[g].rows + [rows[i]])];
            forall h :: 0 <= h < |groups'| ==>
              && groups'[h].topic == groups[h].topic
              && groups'[h].rows == RowsOf(rows[..i + 1], groups'[h].topic)
              && groups'[h].rows != [] && groups'[h].rows[0] == groups[h].rows[0]
  {
    RowsOfNext(rows, i);
  }

  lemma LargerGroup(groups: seq<Group>, index: map<Topic, nat>, rows: seq<Row>, i: nat)
    requires Ascending(rows) && i < |rows| && Indexed(groups, index, rows, i) && rows[i].topic in index
    ensures var g := index[rows[i].topic];
            Indexed(groups[g := groups[g].(rows := groups[g].rows + [rows[i]])], index, rows, i + 1)
  {
    LargerGroupRows(groups, index, rows, i);
  }

  lemma IndexedIsGrouping(groups: seq<Group>, index: map<Topic, nat>, rows: seq<Row>)
    requires Indexed(groups, index, rows, |rows|)
    ensures IsGrouping(groups, rows)
  {
    assert rows[..|rows|] == rows;
    forall i | 0 <= i < |rows| ensures HasGroup(groups, rows[i].topic) {
      assert groups[index[rows[i].topic]].topic == rows[i].topic;
    }
  }

  /**
   Splits rows by topic: one pass with an index from topic to group, appending each row to its group.
   */
  method GroupByTopic(rows: seq<Row>) returns (groups: seq<Group>)
    requires Ascending(rows)
    ensures IsGrouping(groups, rows)
  {
    groups := [];
    var index: map<Topic, nat> := map[];
    for i := 0 to |rows|
      invariant Indexed(groups, index, rows, i)
    {
      var r := rows[i];
      if r.topic !in index {
        NewGroup(groups, index, rows, i);
        index := index[r.topic := |groups|];
        groups := groups + [Group(r.topic, [r])];
      } else {
        LargerGroup(groups, index, rows, i);
        var g := index[r.topic];
        groups := groups[g := groups[g].(rows := groups[g].rows + [r])];
      }
    }
    IndexedIsGrouping(groups, index, rows);
  }

  // ----- Rows as a multiset -----

  /** A topic's rows are all the rows of that topic, each as often as it occurs. */
  lemma {:induction false} RowsOfMultiplicity(rows: seq<Row>, t: Topic, r: Row)
    ensures multiset(RowsOf(rows, t))[r] == if r.topic == t then multiset(rows)[r] else 0
  {
    if rows != [] {
      var init, last := rows[..|rows| - 1], rows[|rows| - 1];
      RowsOfMultiplicity(init, t, r);
      assert rows == init + [last];
    }
  }

  /** Equal queues of every topic are equal rows up to their order. */
  lemma SameQueuesSameRows(a: seq<Row>, b: seq<Row>)
    requires forall t :: RowsOf(a, t) == RowsOf(b, t)
    ensures multiset(a) == multiset(b)
  {
    forall r ensures multiset(a)[r] == multiset(b)[r] {
      RowsOfMultiplicity(a, r.topic, r);
      RowsOfMultiplicity(b, r.topic, r);
      assert RowsOf(a, r.topic) == RowsOf(b, r.topic);
    }
  }

  lemma SameLast(a: seq<Row>, b: seq<Row>)
    requires Ascending(a) && Ascending(b) && a != [] && b != []
    requires a[|a| - 1] in b && b[|b| - 1] in a
    ensures a[|a| - 1] == b[|b| - 1]
  {
    var i :| 0 <= i < |b| && b[i] == a[|a| - 1];
    var j :| 0 <= j < |a| && a[j] == b[|b| - 1];
    assert i == |b| - 1 || b[i].id < b[|b| - 1].id;
    assert j == |a| - 1 || a[j].id < a[|a| - 1].id;
  }

  lemma InitMembers(a: seq<Row>, r: Row)
    requires Ascending(a) && a != []
    ensures r in a[..|a| - 1] <==> r in a && r != a[|a| - 1]
  {
    assert a == a[..|a| - 1] + [a[|a| - 1]];
  }

  /** Rows in id order are determined by which rows they are. */
  lemma {:induction false} AscendingIsUnique(a: seq<Row>, b: seq<Row>)
    requires Ascending(a) && Ascending(b)
    requires forall r :: r in a <==> r in b
    ensures a == b
  {
    assert a != [] ==> a[|a| - 1] in b;
    assert b != [] ==> b[|b| - 1] in a;
    if a != [] && b != [] {
      var a', b' := a[..|a| - 1], b[..|b| - 1];
      SameLast(a, b);
      forall r ensures r in a' <==> r in b' {
        InitMembers(a, r);
        InitMembers(b, r);
      }
      AscendingIsUnique(a', b');
      assert a == a' + [a[|a| - 1]] && b == b' + [b[|b| - 1]];
    }
  }

  // ----- Arrivals -----

  ghost predicate UniqueIds(rows: seq<Row>) {
    forall i, j :: 0 <= i < j < |rows| ==> rows[i].id != rows[j].id
  }

  /** The visible rows in id order, and the rows still to become visible in the order they will, with new ids. */
  ghost predicate Fresh(rows: seq<Row>, arriving: seq<Row>) {
    Ascending(rows) && UniqueIds(rows + arriving)
  }

  /** The rows after a batch became visible: all of them, in id order. */
  ghost predicate Merges(rows: seq<Row>, batch: seq<Row>, visible: seq<Row>) {
    Ascending(visible) && multiset(visible) == multiset(rows + batch)
  }

  lemma InsertedRows(rows: seq<Row>, p: nat, r: Row)
    requires p <= |rows|
    ensures multiset(rows[..p] + [r] + rows[p..]) == multiset(rows + [r])
  {
    assert rows == rows[..p] + rows[p..];
  }

  /** A commit makes one row visible at its place in the id order. */
  method InsertRow(rows: seq<Row>, r: Row) returns (visible: seq<Row>)
    requires Ascending(rows) && forall i :: 0 <= i < |rows| ==> rows[i].id != r.id
    ensures Merges(rows, [r], visible)
  {
    var p := 0;
    while p < |rows| && rows[p].id < r.id
      invariant p <= |rows| && forall i :: 0 <= i < p ==> rows[i].id < r.id
    {
      p := p + 1;
    }
    visible := rows[..p] + [r] + rows[p..];
    InsertedRows(rows, p, r);
  }

  /** The next arrival has a new id. */
  lemma NextArrivalFits(rows: seq<Row>, arriving: seq<Row>, k: nat, visible: seq<Row>, q: Row)
    requires Fresh(rows, arriving) && k < |arriving| && Merges(rows, arriving[..k], visible) && q in visible
    ensures q.id != arriving[k].id
  {
    var all, n := rows + arriving, |rows| + k;
    assert all[..n] == rows + arriving[..k] && all[n] == arriving[k];
    assert q in multiset(visible);
    assert q in all[..n];
    var i :| 0 <= i < |all[..n]| && all[..n][i] == q;
    assert all[i].id != all[n].id;
  }

  /** The first k arrivals become visible. */
  method Arrive(rows: seq<Row>, arriving: seq<Row>, k: nat) returns (visible: seq<Row>)
    requires Fresh(rows, arriving) && k <= |arriving|
    ensures Merges(rows, arriving[..k], visible)
  {
    visible := rows;
    assert rows + arriving[..0] == rows;
    for i := 0 to k
      invariant Merges(rows, arriving[..i], visible)
    {
      forall j | 0 <= j < |visible| ensures visible[j].id != arriving[i].id {
        NextArrivalFits(rows, arriving, i, visible, visible[j]);
      }
      visible := InsertRow(visible, arriving[i]);
      assert rows + arriving[..i + 1] == (rows + arriving[..i]) + [arriving[i]];
    }
  }

  lemma ArrivalsKeepIds(rows: seq<Row>, arriving: seq<Row>, k: nat, visible: seq<Row>)
    requires Fresh(rows, arriving) && k <= |arriving| && Merges(rows, arriving[..k], visible)
    ensures UniqueIds(visible + arriving[k..])
  {
    forall i, j | 0 <= i < |visible| && k <= j < |arriving| ensures visible[i].id != arriving[j].id {
      var all, n := rows + arriving, |rows| + k;
      assert all[..n] == rows + arriving[..k];
      assert visible[i] in multiset(visible);
      assert visible[i] in all[..n];
      var a :| 0 <= a < |all[..n]| && all[..n][a] == visible[i];
      assert all[a].id != all[|rows| + j].id;
    }
    forall i, j | k <= i < j < |arriving| ensures arriving[i].id != arriving[j].id {
      assert (rows + arriving)[|rows| + i].id != (rows + arriving)[|rows| + j].id;
    }
  }

  /** Arrivals change which rows are visible: no row is lost or repeated, and no id is used twice. */
  lemma ArrivalsKeepRows(rows: seq<Row>, arriving: seq<Row>, k: nat, visible: seq<Row>)
    requires Fresh(rows, arriving) && k <= |arriving| && Merges(rows, arriving[..k], visible)
    ensures Fresh(visible, arriving[k..])
    ensures multiset(visible + arriving[k..]) == multiset(rows + arriving)
  {
    ArrivalsKeepIds(rows, arriving, k, visible);
    assert rows + arriving == (rows + arriving[..k]) + arriving[k..];
  }

  lemma RowsOfPrefix(rows: seq<Row>, n: nat, t: Topic)
    requires n <= |rows|
    ensures RowsOf(rows[..n], t) <= RowsOf(rows, t)
  {
    assert rows == rows[..n] + rows[n..];
    RowsOfConcat(rows[..n], rows[n..], t);
  }

  /**
   When the rows of a topic become visible in id order, arrivals leave its queue as it is, whatever order
   the rows of other topics arrive in.
   */
  lemma ArrivalsKeepQueue(rows: seq<Row>, arriving: seq<Row>, k: nat, visible: seq<Row>, t: Topic)
    requires Ascending(RowsOf(rows + arriving, t)) && k <= |arriving| && Merges(rows, arriving[..k], visible)
    ensures RowsOf(visible + arriving[k..], t) == RowsOf(rows + arriving, t)
  {
    var all, n := rows + arriving, |rows| + k;
    assert all[..n] == rows + arriving[..k] && all[n..] == arriving[k..] && all == all[..n] + all[n..];
    RowsOfPrefix(all, n, t);
    RowsOfAscending(visible, t);
    assert forall i :: 0 <= i < |RowsOf(all[..n], t)| ==> RowsOf(all[..n], t)[i] == RowsOf(all, t)[i];
    forall r ensures r in RowsOf(visible, t) <==> r in RowsOf(all[..n], t) {
      RowsOfMembers(visible, t);
      RowsOfMembers(all[..n], t);
      assert r in multiset(visible) <==> r in multiset(all[..n]);
    }
    AscendingIsUnique(RowsOf(visible, t), RowsOf(all[..n], t));
    RowsOfConcat(all[..n], all[n..], t);
    RowsOfConcat(visible, arriving[k..], t);
  }
}

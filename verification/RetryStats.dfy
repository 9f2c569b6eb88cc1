/**
 The statistics of failed retries. A query gives one row per topic, group and exact error; a loop
 folds the rows, which come sorted, into one item per topic and group, and merges its errors by class.
 The results are compared with a recount of the table itself.
 */
module RetryStats {
  import opened Wrappers
  import opened RetryRecords
  import opened RetryTable
  import opened ErrorClasses

  datatype Pair = Pair(topic: Text, group: Text)

  /** Which failed rows a query reads. */
  type Keep = Record -> bool

  datatype ErrorRow = ErrorRow(pair: Pair, error: Text, count: int, first: int, last: int)

  const EVERY: Keep := (r: Record) => true

  function PairOf(r: Record): Pair {
    Pair(r.topic, r.group)
  }

  predicate Reads(r: Record, keep: Keep, p: Pair) {
    r.Finished() && keep(r) && PairOf(r) == p
  }

  /** The failed rows of a pair that the query reads. */
  function FailedOf(t: Table, keep: Keep, p: Pair): set<int> {
    set id | id in t && Reads(t[id], keep, p)
  }

  function WithError(t: Table, keep: Keep, p: Pair, e: Text): set<int> {
    set id | id in t && Reads(t[id], keep, p) && t[id].error == e
  }

  function OfClassIds(t: Table, keep: Keep, p: Pair, cls: Classes, c: Text): set<int> {
    set id | id in t && Reads(t[id], keep, p) && cls(t[id].error) == c
  }

  predicate FailedAt(t: Table, ids: set<int>, time: int) {
    exists id :: id in ids && id in t && t[id].finishedAt == Some(time)
  }

  /** `first` and `last` are the least and the greatest finishing time of the rows. */
  predicate Spans(t: Table, ids: set<int>, first: int, last: int) {
    && (forall id | id in ids :: id in t && t[id].Finished() && first <= t[id].finishedAt.value <= last)
    && FailedAt(t, ids, first) && FailedAt(t, ids, last)
  }

  predicate Describes(row: ErrorRow, t: Table, keep: Keep) {
    var ids := WithError(t, keep, row.pair, row.error);
    row.count == |ids| && Spans(t, ids, row.first, row.last)
  }

  /** Rows of a pair come together: the query orders them by topic and group. */
  predicate Adjacent(pairs: seq<Pair>) {
    forall i, j, k | 0 <= i < j < k < |pairs| && pairs[i] == pairs[k] :: pairs[j] == pairs[k]
  }

  predicate HasRow(rows: seq<ErrorRow>, p: Pair, e: Text) {
    exists i :: 0 <= i < |rows| && rows[i].pair == p && rows[i].error == e
  }

  /** The rows of GROUP BY topic, group, error over the failed rows the query reads. */
  predicate GroupsErrors(rows: seq<ErrorRow>, t: Table, keep: Keep) {
    && (forall i | 0 <= i < |rows| :: Describes(rows[i], t, keep))
    && (forall i, j | 0 <= i < j < |rows| :: rows[i].pair != rows[j].pair || rows[i].error != rows[j].error)
    && (forall id | id in t && t[id].Finished() && keep(t[id]) :: HasRow(rows, PairOf(t[id]), t[id].error))
  }

  function ToStat(row: ErrorRow): Stat {
    Stat(row.error, Text(""), row.count, Some(row.first), Some(row.last))
  }

  /** The statistics of one pair, in the order of its rows. */
  function StatsOf(rows: seq<ErrorRow>, p: Pair): seq<Stat> {
    if rows == [] then []
    else
      var init, last := StatsOf(rows[..|rows| - 1], p), rows[|rows| - 1];
      if last.pair == p then init + [ToStat(last)] else init
  }

  // ---------------------------------------------------------------- counts are a recount

  function ErrorsIn(rows: seq<ErrorRow>, p: Pair): set<Text> {
    if rows == [] then {}
    else
      var init, last := ErrorsIn(rows[..|rows| - 1], p), rows[|rows| - 1];
      if last.pair == p then init + {last.error} else init
  }

  function Covered(t: Table, keep: Keep, p: Pair, cls: Classes, c: Text, errors: set<Text>): set<int> {
    set id | id in t && Reads(t[id], keep, p) && cls(t[id].error) == c && t[id].error in errors
  }

  lemma {:induction false} ErrorsInMember(rows: seq<ErrorRow>, p: Pair, e: Text)
    ensures e in ErrorsIn(rows, p) <==> HasRow(rows, p, e)
  {
    if rows != [] {
      var init, last := rows[..|rows| - 1], rows[|rows| - 1];
      ErrorsInMember(init, p, e);
      if HasRow(init, p, e) {
        var i :| 0 <= i < |init| && init[i].pair == p && init[i].error == e;
        assert rows[i] == init[i];
      }
      if HasRow(rows, p, e) {
        var i :| 0 <= i < |rows| && rows[i].pair == p && rows[i].error == e;
        assert i == |rows| - 1 || init[i] == rows[i];
      }
    }
  }

  lemma CoverNext(t: Table, keep: Keep, p: Pair, cls: Classes, c: Text, errors: set<Text>, e: Text)
    requires e !in errors
    ensures |Covered(t, keep, p, cls, c, errors + {e})| ==
      |Covered(t, keep, p, cls, c, errors)| + if cls(e) == c then |WithError(t, keep, p, e)| else 0
  {
    var before, after := Covered(t, keep, p, cls, c, errors), Covered(t, keep, p, cls, c, errors + {e});
    assert forall id :: id in after <==> id in before || (cls(e) == c && id in WithError(t, keep, p, e));
    if cls(e) == c {
      assert after == before + WithError(t, keep, p, e);
      assert before !! WithError(t, keep, p, e);
    } else {
      assert after == before;
    }
  }

  lemma {:induction false} ClassSum(rows: seq<ErrorRow>, t: Table, keep: Keep, p: Pair, cls: Classes, c: Text)
    requires forall i | 0 <= i < |rows| :: Describes(rows[i], t, keep)
    requires forall i, j | 0 <= i < j < |rows| :: rows[i].pair != rows[j].pair || rows[i].error != rows[j].error
    ensures Sum(Members(StatsOf(rows, p), cls, c)) == |Covered(t, keep, p, cls, c, ErrorsIn(rows, p))|
  {
    if rows == [] {
      assert Covered(t, keep, p, cls, c, {}) == {};
    } else {
      var init, last := rows[..|rows| - 1], rows[|rows| - 1];
      assert forall i | 0 <= i < |init| :: rows[i] == init[i];
      ClassSum(init, t, keep, p, cls, c);
      if last.pair == p {
        ErrorsInMember(init, p, last.error);
        assert Describes(last, t, keep);
        CoverNext(t, keep, p, cls, c, ErrorsIn(init, p), last.error);
        MembersOfMore(StatsOf(init, p), ToStat(last), cls, c);
      }
    }
  }

  lemma MembersOfMore(stats: seq<Stat>, s: Stat, cls: Classes, c: Text)
    ensures Members(stats + [s], cls, c) == if cls(s.error) == c then Members(stats, cls, c) + [s] else Members(stats, cls, c)
    ensures Sum(Members(stats + [s], cls, c)) == Sum(Members(stats, cls, c)) + if cls(s.error) == c then s.failedCount else 0
  {
    assert (stats + [s])[..|stats|] == stats;
    SumNext(Members(stats, cls, c), s);
  }

  /** The count of a class is the number of failed rows of the pair whose error has that class. */
  lemma ClassCountIsRecount(rows: seq<ErrorRow>, t: Table, keep: Keep, p: Pair, cls: Classes, c: Text)
    requires GroupsErrors(rows, t, keep)
    ensures Sum(Members(StatsOf(rows, p), cls, c)) == |OfClassIds(t, keep, p, cls, c)|
  {
    ClassSum(rows, t, keep, p, cls, c);
    forall id | id in OfClassIds(t, keep, p, cls, c) ensures t[id].error in ErrorsIn(rows, p) {
      ErrorsInMember(rows, p, t[id].error);
    }
    assert Covered(t, keep, p, cls, c, ErrorsIn(rows, p)) == OfClassIds(t, keep, p, cls, c);
  }

  lemma {:induction false} OneClass(stats: seq<Stat>, c: Text)
    ensures Members(stats, _ => c, c) == stats
  {
    if stats != [] {
      OneClass(stats[..|stats| - 1], c);
    }
  }

  /** The counts of a pair add up to its failed rows. */
  lemma TotalIsRecount(rows: seq<ErrorRow>, t: Table, keep: Keep, p: Pair)
    requires GroupsErrors(rows, t, keep)
    ensures Sum(StatsOf(rows, p)) == |FailedOf(t, keep, p)|
  {
    var c := Text("");
    ClassCountIsRecount(rows, t, keep, p, _ => c, c);
    OneClass(StatsOf(rows, p), c);
    assert OfClassIds(t, keep, p, _ => c, c) == FailedOf(t, keep, p);
  }

  // ---------------------------------------------------------------- times are a recount

  /** The statistics of a class come from its rows, and every row of the pair is represented. */
  lemma {:induction false} MembersAreRows(rows: seq<ErrorRow>, p: Pair, cls: Classes, c: Text, k: nat) returns (i: nat)
    requires k < |Members(StatsOf(rows, p), cls, c)|
    ensures i < |rows| && rows[i].pair == p && cls(rows[i].error) == c
    ensures Members(StatsOf(rows, p), cls, c)[k] == ToStat(rows[i])
  {
    var init, last := rows[..|rows| - 1], rows[|rows| - 1];
    if last.pair == p {
      MembersOfMore(StatsOf(init, p), ToStat(last), cls, c);
    }
    if k < |Members(StatsOf(init, p), cls, c)| {
      i := MembersAreRows(init, p, cls, c, k);
    } else {
      i := |rows| - 1;
    }
  }

  lemma {:induction false} RowsAreMembers(rows: seq<ErrorRow>, p: Pair, cls: Classes, c: Text, i: nat) returns (k: nat)
    requires i < |rows| && rows[i].pair == p && cls(rows[i].error) == c
    ensures k < |Members(StatsOf(rows, p), cls, c)| && Members(StatsOf(rows, p), cls, c)[k] == ToStat(rows[i])
  {
    var init, last := rows[..|rows| - 1], rows[|rows| - 1];
    if last.pair == p {
      MembersOfMore(StatsOf(init, p), ToStat(last), cls, c);
    }
    if i < |init| {
      k := RowsAreMembers(init, p, cls, c, i);
    } else {
      k := |Members(StatsOf(init, p), cls, c)|;
    }
  }

  /** What a class entry says about the rows of its class: their number, their times, and a sample. */
  predicate Recounts(e: Stat, t: Table, keep: Keep, p: Pair, cls: Classes) {
    var ids := OfClassIds(t, keep, p, cls, e.error);
    && e.failedCount == |ids|
    && e.first.Some? && e.last.Some? && Spans(t, ids, e.first.value, e.last.value)
    && SampleIsNewest(e, t, ids)
  }

  /** The sample is the exact error of a row that failed last. */
  predicate SampleIsNewest(e: Stat, t: Table, ids: set<int>) {
    exists id :: id in ids && id in t && t[id].finishedAt == e.last && t[id].error == e.sample
  }

  lemma FirstIsMinimum(rows: seq<ErrorRow>, t: Table, keep: Keep, p: Pair, cls: Classes, c: Text, e: Stat)
    requires GroupsErrors(rows, t, keep)
    requires SummaryFor(StatsOf(rows, p), cls, c) == Some(e)
    ensures e.first.Some? && FailedAt(t, OfClassIds(t, keep, p, cls, c), e.first.value)
    ensures forall id | id in OfClassIds(t, keep, p, cls, c) :: e.first.value <= t[id].finishedAt.value
  {
    var ms := Members(StatsOf(rows, p), cls, c);
    EarliestIsMinimum(ms);
    var some := MembersAreRows(rows, p, cls, c, 0);
    var k :| 0 <= k < |ms| && ms[k].first == e.first;
    var i := MembersAreRows(rows, p, cls, c, k);
    assert Describes(rows[i], t, keep);
    var earliest :| earliest in WithError(t, keep, p, rows[i].error) && t[earliest].finishedAt == e.first;
    assert earliest in OfClassIds(t, keep, p, cls, c);
    forall id | id in OfClassIds(t, keep, p, cls, c) ensures e.first.value <= t[id].finishedAt.value {
      var j := RowOf(rows, t, keep, p, id);
      var l := RowsAreMembers(rows, p, cls, c, j);
    }
  }

  /** The row a failed retry is counted in. */
  lemma RowOf(rows: seq<ErrorRow>, t: Table, keep: Keep, p: Pair, id: int) returns (j: nat)
    requires GroupsErrors(rows, t, keep) && id in FailedOf(t, keep, p)
    ensures j < |rows| && rows[j].pair == p && rows[j].error == t[id].error
    ensures rows[j].first <= t[id].finishedAt.value <= rows[j].last
  {
    j :| 0 <= j < |rows| && rows[j].pair == p && rows[j].error == t[id].error;
    assert Describes(rows[j], t, keep) && id in WithError(t, keep, p, rows[j].error);
  }

  lemma LastIsAttained(rows: seq<ErrorRow>, t: Table, keep: Keep, p: Pair, cls: Classes, c: Text, e: Stat)
    requires GroupsErrors(rows, t, keep)
    requires SummaryFor(StatsOf(rows, p), cls, c) == Some(e)
    ensures e.last.Some? && FailedAt(t, OfClassIds(t, keep, p, cls, c), e.last.value)
    ensures SampleIsNewest(e, t, OfClassIds(t, keep, p, cls, c))
  {
    var i := MembersAreRows(rows, p, cls, c, Newest(Members(StatsOf(rows, p), cls, c)));
    assert Describes(rows[i], t, keep);
    var newest :| newest in WithError(t, keep, p, rows[i].error) && t[newest].finishedAt == e.last;
    assert newest in OfClassIds(t, keep, p, cls, c);
  }

  lemma LastIsMaximum(rows: seq<ErrorRow>, t: Table, keep: Keep, p: Pair, cls: Classes, c: Text, e: Stat, id: int)
    requires GroupsErrors(rows, t, keep)
    requires SummaryFor(StatsOf(rows, p), cls, c) == Some(e) && e.last.Some?
    requires id in OfClassIds(t, keep, p, cls, c)
    ensures t[id].finishedAt.value <= e.last.value
  {
    NewestIsFirstMaximum(Members(StatsOf(rows, p), cls, c));
    var j := RowOf(rows, t, keep, p, id);
    var l := RowsAreMembers(rows, p, cls, c, j);
  }

  /** Merging the rows of a pair by class and recounting the table by class agree in every field. */
  lemma ClassEntryRecounts(rows: seq<ErrorRow>, t: Table, keep: Keep, p: Pair, cls: Classes, e: Stat)
    requires GroupsErrors(rows, t, keep) && Summarizes(e, StatsOf(rows, p), cls)
    ensures Recounts(e, t, keep, p, cls)
  {
    var c := e.error;
    ClassCountIsRecount(rows, t, keep, p, cls, c);
    FirstIsMinimum(rows, t, keep, p, cls, c, e);
    LastIsAttained(rows, t, keep, p, cls, c, e);
    forall id | id in OfClassIds(t, keep, p, cls, c) ensures t[id].finishedAt.value <= e.last.value {
      LastIsMaximum(rows, t, keep, p, cls, c, e, id);
    }
  }

  // ---------------------------------------------------------------- the folding loops

  datatype Item<T> = Item(pair: Pair, counts: T, errors: seq<Stat>)

  function Pairs(rows: seq<ErrorRow>): seq<Pair> {
    seq(|rows|, i requires 0 <= i < |rows| => rows[i].pair)
  }

  function PairsIn(pairs: seq<Pair>): set<Pair> {
    set i | 0 <= i < |pairs| :: pairs[i]
  }

  function ItemPairs<T>(items: seq<Item<T>>): set<Pair> {
    set i | 0 <= i < |items| :: items[i].pair
  }

  predicate DistinctPairs<T>(items: seq<Item<T>>) {
    forall i, j | 0 <= i < j < |items| :: items[i].pair != items[j].pair
  }

  /** The items so far: one for each pair seen, the newest for the pair of the last row. */
  predicate Follows<T>(items: seq<Item<T>>, pairs: seq<Pair>) {
    && DistinctPairs(items) && ItemPairs(items) == PairsIn(pairs)
    && (pairs != [] ==> items != [] && items[|items| - 1].pair == pairs[|pairs| - 1])
  }

  lemma FollowsNew<T>(items: seq<Item<T>>, pairs: seq<Pair>, item: Item<T>)
    requires pairs != [] && Adjacent(pairs) && item.pair == pairs[|pairs| - 1]
    requires Follows(items, pairs[..|pairs| - 1])
    requires items == [] || items[|items| - 1].pair != item.pair
    ensures item.pair !in ItemPairs(items)
    ensures Follows(items + [item], pairs)
  {
    var init := pairs[..|pairs| - 1];
    forall i | 0 <= i < |init| ensures pairs[i] != item.pair {
      assert pairs[i] == init[i];
    }
    assert PairsIn(pairs) == PairsIn(init) + {item.pair};
    var next := items + [item];
    assert forall i | 0 <= i < |items| :: next[i].pair == items[i].pair;
    assert next[|items|].pair == item.pair;
    assert ItemPairs(next) == ItemPairs(items) + {item.pair};
    forall i | 0 <= i < |items| ensures items[i].pair != item.pair {
      assert items[i].pair in ItemPairs(items);
    }
  }

  lemma FollowsSame<T>(items: seq<Item<T>>, pairs: seq<Pair>, item: Item<T>)
    requires pairs != [] && item.pair == pairs[|pairs| - 1] && Follows(items, pairs[..|pairs| - 1])
    requires items != [] && items[|items| - 1].pair == item.pair
    ensures Follows(items[|items| - 1 := item], pairs)
  {
    var init := pairs[..|pairs| - 1];
    var next := items[|items| - 1 := item];
    assert items[|items| - 1].pair in ItemPairs(items);
    assert PairsIn(pairs) == PairsIn(init) + {item.pair};
    assert ItemPairs(next) == ItemPairs(items) by {
      assert forall i | 0 <= i < |items| :: next[i].pair == items[i].pair;
    }
  }

  // ---------------------------------------------------------------- failures inside a window

  /** Failed at or after `since` and before `until`; an empty topic or group stands for every one. */
  function InWindow(since: int, until: int, topic: Text, group: Text): Keep {
    (r: Record) =>
      && r.finishedAt.Some? && since <= r.finishedAt.value < until
      && (topic.value == "" || r.topic == topic) && (group.value == "" || r.group == group)
  }

  predicate TriageItems(items: seq<Item<int>>, rows: seq<ErrorRow>) {
    forall i | 0 <= i < |items| ::
      items[i].errors == StatsOf(rows, items[i].pair) && items[i].counts == Sum(items[i].errors)
  }

  lemma {:induction false} NoStats(rows: seq<ErrorRow>, p: Pair)
    requires p !in PairsIn(Pairs(rows))
    ensures StatsOf(rows, p) == []
  {
    if rows != [] {
      assert Pairs(rows)[|rows| - 1] == rows[|rows| - 1].pair;
      forall q | q in PairsIn(Pairs(rows[..|rows| - 1])) ensures q in PairsIn(Pairs(rows)) {
        var i :| 0 <= i < |rows| - 1 && Pairs(rows[..|rows| - 1])[i] == q;
        assert Pairs(rows)[i] == q;
      }
      NoStats(rows[..|rows| - 1], p);
    }
  }

  lemma TriageNew(items: seq<Item<int>>, rows: seq<ErrorRow>, row: ErrorRow)
    requires rows != [] && rows[|rows| - 1] == row
    requires TriageItems(items, rows[..|rows| - 1]) && row.pair !in ItemPairs(items)
    requires StatsOf(rows[..|rows| - 1], row.pair) == []
    ensures TriageItems(items + [Item(row.pair, row.count, [ToStat(row)])], rows)
  {
    assert forall i | 0 <= i < |items| :: items[i].pair in ItemPairs(items);
    SumNext([], ToStat(row));
    assert [] + [ToStat(row)] == [ToStat(row)];
  }

  lemma TriageSame(items: seq<Item<int>>, rows: seq<ErrorRow>, row: ErrorRow)
    requires rows != [] && rows[|rows| - 1] == row
    requires TriageItems(items, rows[..|rows| - 1]) && DistinctPairs(items)
    requires items != [] && items[|items| - 1].pair == row.pair
    ensures var last := items[|items| - 1];
      TriageItems(items[|items| - 1 := Item(last.pair, last.counts + row.count, last.errors + [ToStat(row)])], rows)
  {
    SumNext(items[|items| - 1].errors, ToStat(row));
    assert forall i | 0 <= i < |items| - 1 :: items[i].pair != row.pair;
  }

  method AppendTriageRow(items: seq<Item<int>>, ghost rows: seq<ErrorRow>, row: ErrorRow) returns (next: seq<Item<int>>)
    requires rows != [] && rows[|rows| - 1] == row && Adjacent(Pairs(rows))
    requires Follows(items, Pairs(rows[..|rows| - 1])) && TriageItems(items, rows[..|rows| - 1])
    ensures Follows(next, Pairs(rows)) && TriageItems(next, rows)
  {
    assert Pairs(rows)[..|rows| - 1] == Pairs(rows[..|rows| - 1]);
    if items == [] || items[|items| - 1].pair != row.pair {
      var item := Item(row.pair, row.count, [ToStat(row)]);
      FollowsNew(items, Pairs(rows), item);
      NoStats(rows[..|rows| - 1], row.pair);
      TriageNew(items, rows, row);
      next := items + [item];
    } else {
      var last := items[|items| - 1];
      var item := Item(last.pair, last.counts + row.count, last.errors + [ToStat(row)]);
      FollowsSame(items, Pairs(rows), item);
      TriageSame(items, rows, row);
      next := items[|items| - 1 := item];
    }
  }

  /** What an item of either statistic says about its pair. */
  predicate ItemRecounts<T>(item: Item<T>, failedCount: int, t: Table, keep: Keep, cls: Classes) {
    && failedCount == |FailedOf(t, keep, item.pair)| == Sum(item.errors)
    && StrictlySorted(item.errors) && DistinctClasses(item.errors)
    && (forall i | 0 <= i < |item.errors| :: Recounts(item.errors[i], t, keep, item.pair, cls))
    && ErrorsOf(item.errors) == ClassesOfRows(t, keep, item.pair, cls)
  }

  lemma {:induction false} ClassHasMember(stats: seq<Stat>, cls: Classes, c: Text)
    requires c in ClassesOf(stats, cls)
    ensures Members(stats, cls, c) != []
  {
    var init, last := stats[..|stats| - 1], stats[|stats| - 1];
    if cls(last.error) != c {
      ClassHasMember(init, cls, c);
    }
  }

  function ClassesOfRows(t: Table, keep: Keep, p: Pair, cls: Classes): set<Text> {
    set id | id in t && Reads(t[id], keep, p) :: cls(t[id].error)
  }

  lemma ClassesAreRecount(rows: seq<ErrorRow>, t: Table, keep: Keep, p: Pair, cls: Classes)
    requires GroupsErrors(rows, t, keep)
    ensures ClassesOf(StatsOf(rows, p), cls) == ClassesOfRows(t, keep, p, cls)
  {
    forall c | c in ClassesOf(StatsOf(rows, p), cls) ensures c in ClassesOfRows(t, keep, p, cls) {
      ClassHasMember(StatsOf(rows, p), cls, c);
      var i := MembersAreRows(rows, p, cls, c, 0);
      assert Describes(rows[i], t, keep);
      var id :| id in WithError(t, keep, p, rows[i].error) && t[id].finishedAt == Some(rows[i].first);
    }
    forall c | c in ClassesOfRows(t, keep, p, cls) ensures c in ClassesOf(StatsOf(rows, p), cls) {
      var id :| id in t && Reads(t[id], keep, p) && cls(t[id].error) == c;
      var j := RowOf(rows, t, keep, p, id);
      var k := RowsAreMembers(rows, p, cls, c, j);
      if c !in ClassesOf(StatsOf(rows, p), cls) {
        NoMembers(StatsOf(rows, p), cls, c);
      }
    }
  }

  lemma GroupedErrorsRecount<T>(item: Item<T>, rows: seq<ErrorRow>, t: Table, keep: Keep, cls: Classes)
    requires GroupsErrors(rows, t, keep)
    requires GroupedFrom(item.errors, StatsOf(rows, item.pair), cls)
    ensures ItemRecounts(item, Sum(StatsOf(rows, item.pair)), t, keep, cls)
  {
    TotalIsRecount(rows, t, keep, item.pair);
    ClassesAreRecount(rows, t, keep, item.pair, cls);
    forall i | 0 <= i < |item.errors| ensures Recounts(item.errors[i], t, keep, item.pair, cls) {
      assert Summarizes(item.errors[i], StatsOf(rows, item.pair), cls);
      ClassEntryRecounts(rows, t, keep, item.pair, cls, item.errors[i]);
    }
  }

  predicate GroupedFrom(errors: seq<Stat>, stats: seq<Stat>, cls: Classes) {
    Grouped(errors, stats, cls) && StrictlySorted(errors) && Sum(errors) == Sum(stats)
  }

  ghost predicate Regrouped<T>(after: Item<T>, before: Item<T>, cls: Classes) {
    after.pair == before.pair && after.counts == before.counts && GroupedFrom(after.errors, before.errors, cls)
  }

  method GroupItem<T>(item: Item<T>, cls: Classes) returns (result: Item<T>)
    ensures Regrouped(result, item, cls)
  {
    var errors := GroupByClass(item.errors, cls);
    result := item.(errors := errors);
  }

  /** The second loop of both statistics: the errors of every item merged by class. */
  method GroupItems<T>(items: seq<Item<T>>, cls: Classes) returns (result: seq<Item<T>>)
    ensures |result| == |items|
    ensures forall i | 0 <= i < |items| :: Regrouped(result[i], items[i], cls)
  {
    result := [];
    for k := 0 to |items|
      invariant |result| == k
      invariant forall i | 0 <= i < k :: Regrouped(result[i], items[i], cls)
    {
      var item := GroupItem(items[k], cls);
      result := result + [item];
    }
  }

  lemma SamePairs<T>(a: seq<Item<T>>, b: seq<Item<T>>)
    requires |a| == |b| && forall i | 0 <= i < |b| :: a[i].pair == b[i].pair
    ensures ItemPairs(a) == ItemPairs(b) && (DistinctPairs(b) ==> DistinctPairs(a))
  {
  }

  method FoldTriage(rows: seq<ErrorRow>) returns (items: seq<Item<int>>)
    requires Adjacent(Pairs(rows))
    ensures Follows(items, Pairs(rows)) && TriageItems(items, rows)
  {
    items := [];
    for k := 0 to |rows|
      invariant Follows(items, Pairs(rows[..k])) && TriageItems(items, rows[..k])
    {
      ghost var seen := rows[..k + 1];
      assert seen[..k] == rows[..k];
      assert Adjacent(Pairs(seen)) by {
        assert forall i | 0 <= i < |seen| :: Pairs(seen)[i] == Pairs(rows)[i];
      }
      items := AppendTriageRow(items, seen, rows[k]);
    }
    assert rows[..|rows|] == rows;
  }

  function FailedPairs(t: Table, keep: Keep): set<Pair> {
    set id | id in t && t[id].Finished() && keep(t[id]) :: PairOf(t[id])
  }

  lemma PairsAreRecount(rows: seq<ErrorRow>, t: Table, keep: Keep)
    requires GroupsErrors(rows, t, keep)
    ensures PairsIn(Pairs(rows)) == FailedPairs(t, keep)
  {
    forall p | p in PairsIn(Pairs(rows)) ensures p in FailedPairs(t, keep) {
      var i :| 0 <= i < |rows| && Pairs(rows)[i] == p;
      assert Describes(rows[i], t, keep);
      var id :| id in WithError(t, keep, p, rows[i].error) && t[id].finishedAt == Some(rows[i].first);
    }
    forall id | id in t && t[id].Finished() && keep(t[id]) ensures PairOf(t[id]) in PairsIn(Pairs(rows)) {
      var i :| 0 <= i < |rows| && rows[i].pair == PairOf(t[id]) && rows[i].error == t[id].error;
      assert Pairs(rows)[i] == PairOf(t[id]);
    }
  }

  /** The rows of a pair that has a failure in the window, column by column. */
  lemma WindowRows(t: Table, since: int, until: int, topic: Text, group: Text, p: Pair)
    requires p in FailedPairs(t, InWindow(since, until, topic, group))
    ensures var ids := set id | id in t && t[id].topic == p.topic && t[id].group == p.group
                                && t[id].finishedAt.Some? && since <= t[id].finishedAt.value < until;
      FailedOf(t, InWindow(since, until, topic, group), p) == ids && |ids| > 0
    ensures (topic.value != "" ==> p.topic == topic) && (group.value != "" ==> p.group == group)
  {
    var keep := InWindow(since, until, topic, group);
    var some :| some in t && t[some].Finished() && keep(t[some]) && PairOf(t[some]) == p;
    var ids := set id | id in t && t[id].topic == p.topic && t[id].group == p.group
                        && t[id].finishedAt.Some? && since <= t[id].finishedAt.value < until;
    forall id ensures id in FailedOf(t, keep, p) <==> id in ids {
      assert id in t ==> (Reads(t[id], keep, p) <==> t[id].Finished() && keep(t[id]) && PairOf(t[id]) == p);
    }
    assert some in ids;
  }

  /**
   One item for each topic and group with a failure in the window, and no other; its counts, times,
   classes and samples are a recount of the rows that failed inside the window.
   */
  method GetTriageStat(rows: seq<ErrorRow>, since: int, until: int, topic: Text, group: Text, cls: Classes, ghost t: Table)
    returns (list: seq<Item<int>>)
    requires Adjacent(Pairs(rows)) && GroupsErrors(rows, t, InWindow(since, until, topic, group))
    ensures DistinctPairs(list) && ItemPairs(list) == FailedPairs(t, InWindow(since, until, topic, group))
    ensures forall i | 0 <= i < |list| :: ItemRecounts(list[i], list[i].counts, t, InWindow(since, until, topic, group), cls)
    ensures forall i | 0 <= i < |list| ::
      && list[i].counts > 0
      && list[i].counts == |set id | id in t && t[id].topic == list[i].pair.topic && t[id].group == list[i].pair.group
                                     && t[id].finishedAt.Some? && since <= t[id].finishedAt.value < until|
      && (topic.value != "" ==> list[i].pair.topic == topic) && (group.value != "" ==> list[i].pair.group == group)
  {
    var items := FoldTriage(rows);
    list := GroupItems(items, cls);
    SamePairs(list, items);
    PairsAreRecount(rows, t, InWindow(since, until, topic, group));
    forall i | 0 <= i < |list| ensures ItemRecounts(list[i], list[i].counts, t, InWindow(since, until, topic, group), cls) {
      GroupedErrorsRecount(list[i], rows, t, InWindow(since, until, topic, group), cls);
    }
    forall i | 0 <= i < |list|
      ensures list[i].counts > 0
      ensures list[i].counts == |set id | id in t && t[id].topic == list[i].pair.topic && t[id].group == list[i].pair.group
                                        && t[id].finishedAt.Some? && since <= t[id].finishedAt.value < until|
      ensures (topic.value != "" ==> list[i].pair.topic == topic) && (group.value != "" ==> list[i].pair.group == group)
    {
      assert list[i].pair in ItemPairs(list);
      WindowRows(t, since, until, topic, group, list[i].pair);
    }
  }

  // ---------------------------------------------------------------- the whole queue

  datatype Totals = Totals(all: int, failed: int, deferred: int, lastError: Text, lastReason: Text)

  /** A pair joined with one of its errors, or with none when nothing of it has failed. */
  datatype StatRow = StatRow(pair: Pair, totals: Totals, error: Option<ErrorRow>)

  function PairIds(t: Table, p: Pair): set<int> {
    set id | id in t && PairOf(t[id]) == p
  }

  function PairDeferred(t: Table, p: Pair): set<int> {
    set id | id in t && PairOf(t[id]) == p && !t[id].Finished() && t[id].deferred
  }

  function PairPending(t: Table, p: Pair): set<int> {
    set id | id in t && PairOf(t[id]) == p && !t[id].Finished() && !t[id].deferred
  }

  /** A postponement is not an error: the rows whose error counts as one. */
  function PairErrors(t: Table, p: Pair): set<int> {
    set id | id in t && PairOf(t[id]) == p && (t[id].Finished() || !t[id].deferred)
  }

  /** Failed rows come first, then the later start, then the higher id. */
  predicate Ahead(t: Table, i: int, j: int)
    requires i in t && j in t
  {
    if t[i].Finished() != t[j].Finished() then t[i].Finished()
    else if t[i].startedAt != t[j].startedAt then t[i].startedAt > t[j].startedAt
    else i >= j
  }

  predicate Foremost(t: Table, ids: set<int>, id: int) {
    id in t && forall k | k in ids && k in t :: Ahead(t, id, k)
  }

  /** The message is that of the foremost of the rows, or empty if there is none. */
  predicate Reports(message: Text, t: Table, ids: set<int>) {
    if ids == {} then message == Text("") else exists id :: id in ids && Foremost(t, ids, id) && t[id].error == message
  }

  /** What the query computes of one topic and group. */
  predicate TotalsOf(x: Totals, t: Table, p: Pair) {
    && x.all == |PairIds(t, p)| && x.failed == |FailedOf(t, EVERY, p)| && x.deferred == |PairDeferred(t, p)|
    && Reports(x.lastError, t, PairErrors(t, p)) && Reports(x.lastReason, t, PairDeferred(t, p))
  }

  /** The counts of a topic and group, by the columns of its rows. */
  predicate CountsOutright(x: Totals, t: Table, p: Pair) {
    && x.all == |set id | id in t && t[id].topic == p.topic && t[id].group == p.group|
    && x.failed == |set id | id in t && t[id].topic == p.topic && t[id].group == p.group && t[id].finishedAt.Some?|
    && x.deferred == |set id | id in t && t[id].topic == p.topic && t[id].group == p.group && !t[id].finishedAt.Some? && t[id].deferred|
  }

  lemma TotalsAreCounts(x: Totals, t: Table, p: Pair)
    requires TotalsOf(x, t, p)
    ensures CountsOutright(x, t, p)
  {
    forall id | id in t ensures PairOf(t[id]) == p <==> t[id].topic == p.topic && t[id].group == p.group {
      assert p == Pair(p.topic, p.group);
    }
    assert PairIds(t, p) == set id | id in t && t[id].topic == p.topic && t[id].group == p.group;
    var deferred := set id | id in t && t[id].topic == p.topic && t[id].group == p.group && !t[id].finishedAt.Some? && t[id].deferred;
    forall id | id in t ensures id in PairDeferred(t, p) <==> id in deferred {
    }
    assert PairDeferred(t, p) == deferred;
    forall id ensures id in FailedOf(t, EVERY, p) <==> id in t && t[id].Finished() && PairOf(t[id]) == p {
      FailedRow(t, p, id);
    }
    assert FailedOf(t, EVERY, p) == set id | id in t && t[id].topic == p.topic && t[id].group == p.group && t[id].finishedAt.Some?;
  }

  lemma ReportsOne(m: Text, n: Text, t: Table, ids: set<int>)
    requires Reports(m, t, ids) && Reports(n, t, ids)
    ensures m == n
  {
    if ids != {} {
      var i :| i in ids && Foremost(t, ids, i) && t[i].error == m;
      var j :| j in ids && Foremost(t, ids, j) && t[j].error == n;
      assert Ahead(t, i, j) && Ahead(t, j, i);
    }
  }

  /** The table determines the totals, so it does not matter which joined row of a pair they are read from. */
  lemma TotalsAreDetermined(x: Totals, y: Totals, t: Table, p: Pair)
    requires TotalsOf(x, t, p) && TotalsOf(y, t, p)
    ensures x == y
  {
    ReportsOne(x.lastError, y.lastError, t, PairErrors(t, p));
    ReportsOne(x.lastReason, y.lastReason, t, PairDeferred(t, p));
  }

  lemma FailedRow(t: Table, p: Pair, id: int)
    ensures id in FailedOf(t, EVERY, p) <==> id in t && t[id].Finished() && PairOf(t[id]) == p
  {
  }

  /** As soon as anything of a pair failed for good, its last error is the error of such a row. */
  lemma LastErrorIsFailed(x: Totals, t: Table, p: Pair) returns (id: int)
    requires TotalsOf(x, t, p) && p in FailedPairs(t, EVERY)
    ensures id in t && Reads(t[id], EVERY, p) && t[id].error == x.lastError
    ensures forall k | k in t && t[k].Finished() && PairOf(t[k]) == p ::
      t[id].startedAt > t[k].startedAt || (t[id].startedAt == t[k].startedAt && id >= k)
  {
    var k :| k in t && t[k].Finished() && PairOf(t[k]) == p;
    assert k in PairErrors(t, p);
    id :| id in PairErrors(t, p) && Foremost(t, PairErrors(t, p), id) && t[id].error == x.lastError;
    assert Ahead(t, id, k);
    FailedRow(t, p, id);
    forall k | k in t && t[k].Finished() && PairOf(t[k]) == p
      ensures t[id].startedAt > t[k].startedAt || (t[id].startedAt == t[k].startedAt && id >= k)
    {
      assert k in PairErrors(t, p);
      assert Ahead(t, id, k);
    }
  }

  /** As soon as a consumer postponed anything of a pair, the last reason is that of the postponed row with the latest start. */
  lemma LastReasonIsNewest(x: Totals, t: Table, p: Pair, some: int) returns (id: int)
    requires TotalsOf(x, t, p) && some in PairDeferred(t, p)
    ensures id in PairDeferred(t, p) && t[id].error == x.lastReason
    ensures forall k | k in PairDeferred(t, p) ::
      t[id].startedAt > t[k].startedAt || (t[id].startedAt == t[k].startedAt && id >= k)
  {
    id :| id in PairDeferred(t, p) && Foremost(t, PairDeferred(t, p), id) && t[id].error == x.lastReason;
    forall k | k in PairDeferred(t, p)
      ensures t[id].startedAt > t[k].startedAt || (t[id].startedAt == t[k].startedAt && id >= k)
    {
      assert Ahead(t, id, k);
    }
  }

  lemma SomeErrors(stats: seq<Stat>)
    ensures stats != [] ==> ErrorsOf(stats) != {}
  {
    if stats != [] {
      assert stats[0].error in ErrorsOf(stats);
    }
  }

  /** An item shows no error class exactly when nothing failed; otherwise its last error belongs to one of them. */
  lemma LastErrorIsClassified(item: Item<Totals>, t: Table, cls: Classes)
    requires TotalsOf(item.counts, t, item.pair)
    requires ErrorsOf(item.errors) == ClassesOfRows(t, EVERY, item.pair, cls)
    ensures item.counts.failed == 0 <==> item.errors == []
    ensures item.counts.failed > 0 ==> cls(item.counts.lastError) in ErrorsOf(item.errors)
  {
    if item.pair in FailedPairs(t, EVERY) {
      var id := LastErrorIsFailed(item.counts, t, item.pair);
      assert id in FailedOf(t, EVERY, item.pair);
      assert cls(item.counts.lastError) in ErrorsOf(item.errors);
    } else {
      assert forall id | id in t :: !Reads(t[id], EVERY, item.pair);
      assert FailedOf(t, EVERY, item.pair) == {};
      assert ErrorsOf(item.errors) == {};
      SomeErrors(item.errors);
    }
  }

  function ErrorRows(rows: seq<StatRow>): seq<ErrorRow> {
    if rows == [] then []
    else
      var init, last := ErrorRows(rows[..|rows| - 1]), rows[|rows| - 1];
      if last.error.Some? then init + [last.error.value] else init
  }

  function StatPairs(rows: seq<StatRow>): seq<Pair> {
    seq(|rows|, i requires 0 <= i < |rows| => rows[i].pair)
  }

  /** The rows of the joined query over the table. */
  predicate JoinsErrors(rows: seq<StatRow>, t: Table) {
    && Adjacent(StatPairs(rows))
    && GroupsErrors(ErrorRows(rows), t, EVERY)
    && (forall i | 0 <= i < |rows| :: TotalsOf(rows[i].totals, t, rows[i].pair))
    && (forall i | 0 <= i < |rows| && rows[i].error.Some? :: rows[i].error.value.pair == rows[i].pair)
    && PairsIn(StatPairs(rows)) == (set id | id in t :: PairOf(t[id]))
  }

  predicate StatItems(items: seq<Item<Totals>>, rows: seq<StatRow>, t: Table) {
    forall i | 0 <= i < |items| ::
      items[i].errors == StatsOf(ErrorRows(rows), items[i].pair) && TotalsOf(items[i].counts, t, items[i].pair)
  }

  lemma {:induction false} NoErrorRows(rows: seq<StatRow>, p: Pair)
    requires forall i | 0 <= i < |rows| && rows[i].error.Some? :: rows[i].error.value.pair == rows[i].pair
    requires p !in PairsIn(StatPairs(rows))
    ensures StatsOf(ErrorRows(rows), p) == []
  {
    if rows != [] {
      var init, last := rows[..|rows| - 1], rows[|rows| - 1];
      assert StatPairs(rows)[|rows| - 1] == last.pair;
      forall q | q in PairsIn(StatPairs(init)) ensures q in PairsIn(StatPairs(rows)) {
        var i :| 0 <= i < |init| && StatPairs(init)[i] == q;
        assert StatPairs(rows)[i] == q;
      }
      NoErrorRows(init, p);
      if last.error.Some? {
        StatsOfMore(ErrorRows(init), last.error.value, p);
      }
    }
  }

  lemma StatsOfMore(rows: seq<ErrorRow>, row: ErrorRow, p: Pair)
    ensures StatsOf(rows + [row], p) == if row.pair == p then StatsOf(rows, p) + [ToStat(row)] else StatsOf(rows, p)
  {
    assert (rows + [row])[..|rows|] == rows;
  }

  /** One joined row changes only the statistics of its own pair. */
  lemma StatsOfJoined(rows: seq<StatRow>, p: Pair)
    requires rows != [] && (rows[|rows| - 1].error.Some? ==> rows[|rows| - 1].error.value.pair == rows[|rows| - 1].pair)
    ensures var init, last := StatsOf(ErrorRows(rows[..|rows| - 1]), p), rows[|rows| - 1];
      StatsOf(ErrorRows(rows), p) == if last.error.Some? && last.pair == p then init + [ToStat(last.error.value)] else init
  {
    if rows[|rows| - 1].error.Some? {
      StatsOfMore(ErrorRows(rows[..|rows| - 1]), rows[|rows| - 1].error.value, p);
    }
  }

  function ErrorsOfRow(row: StatRow): seq<Stat> {
    if row.error.Some? then [ToStat(row.error.value)] else []
  }

  lemma StatNew(items: seq<Item<Totals>>, rows: seq<StatRow>, row: StatRow, t: Table)
    requires rows != [] && rows[|rows| - 1] == row && TotalsOf(row.totals, t, row.pair)
    requires row.error.Some? ==> row.error.value.pair == row.pair
    requires StatItems(items, rows[..|rows| - 1], t) && row.pair !in ItemPairs(items)
    requires StatsOf(ErrorRows(rows[..|rows| - 1]), row.pair) == []
    ensures StatItems(items + [Item(row.pair, row.totals, ErrorsOfRow(row))], rows, t)
  {
    forall i | 0 <= i < |items| ensures items[i].errors == StatsOf(ErrorRows(rows), items[i].pair) {
      assert items[i].pair in ItemPairs(items);
      StatsOfJoined(rows, items[i].pair);
    }
    StatsOfJoined(rows, row.pair);
  }

  lemma StatSame(items: seq<Item<Totals>>, rows: seq<StatRow>, row: StatRow, t: Table)
    requires rows != [] && rows[|rows| - 1] == row && TotalsOf(row.totals, t, row.pair)
    requires row.error.Some? ==> row.error.value.pair == row.pair
    requires StatItems(items, rows[..|rows| - 1], t) && DistinctPairs(items)
    requires items != [] && items[|items| - 1].pair == row.pair
    ensures var last := items[|items| - 1];
      StatItems(items[|items| - 1 := Item(last.pair, last.counts, last.errors + ErrorsOfRow(row))], rows, t)
  {
    forall i | 0 <= i < |items| - 1 ensures items[i].errors == StatsOf(ErrorRows(rows), items[i].pair) {
      assert items[i].pair != row.pair;
      StatsOfJoined(rows, items[i].pair);
    }
    StatsOfJoined(rows, row.pair);
    assert items[|items| - 1].errors == StatsOf(ErrorRows(rows[..|rows| - 1]), row.pair);
  }

  method AppendStatRow(items: seq<Item<Totals>>, ghost rows: seq<StatRow>, row: StatRow, ghost t: Table)
    returns (next: seq<Item<Totals>>)
    requires rows != [] && rows[|rows| - 1] == row && Adjacent(StatPairs(rows)) && TotalsOf(row.totals, t, row.pair)
    requires forall i | 0 <= i < |rows| && rows[i].error.Some? :: rows[i].error.value.pair == rows[i].pair
    requires Follows(items, StatPairs(rows[..|rows| - 1])) && StatItems(items, rows[..|rows| - 1], t)
    ensures Follows(next, StatPairs(rows)) && StatItems(next, rows, t)
  {
    assert StatPairs(rows)[..|rows| - 1] == StatPairs(rows[..|rows| - 1]);
    var item := Item(row.pair, row.totals, []);
    if items == [] || items[|items| - 1].pair != row.pair {
      if row.error.Some? {
        item := item.(errors := [ToStat(row.error.value)]);
      }
      FollowsNew(items, StatPairs(rows), item);
      NoErrorRows(rows[..|rows| - 1], row.pair);
      StatNew(items, rows, row, t);
      next := items + [item];
    } else {
      item := items[|items| - 1];
      if row.error.Some? {
        item := item.(errors := item.errors + [ToStat(row.error.value)]);
      }
      FollowsSame(items, StatPairs(rows), item);
      StatSame(items, rows, row, t);
      assert items[|items| - 1].errors + [] == items[|items| - 1].errors;
      next := items[|items| - 1 := item];
    }
  }

  method FoldStat(rows: seq<StatRow>, ghost t: Table) returns (items: seq<Item<Totals>>)
    requires JoinsErrors(rows, t)
    ensures Follows(items, StatPairs(rows)) && StatItems(items, rows, t)
  {
    items := [];
    for k := 0 to |rows|
      invariant Follows(items, StatPairs(rows[..k])) && StatItems(items, rows[..k], t)
    {
      ghost var seen := rows[..k + 1];
      assert seen[..k] == rows[..k];
      assert Adjacent(StatPairs(seen)) by {
        assert forall i | 0 <= i < |seen| :: StatPairs(seen)[i] == StatPairs(rows)[i];
      }
      items := AppendStatRow(items, seen, rows[k], t);
    }
    assert rows[..|rows|] == rows;
  }

  lemma PairTotals(t: Table, p: Pair)
    ensures |PairIds(t, p)| == |FailedOf(t, EVERY, p)| + |PairDeferred(t, p)| + |PairPending(t, p)|
  {
    var failed := FailedOf(t, EVERY, p);
    assert forall id | id in t :: id in failed <==> t[id].Finished() && PairOf(t[id]) == p;
    assert PairIds(t, p) == failed + PairDeferred(t, p) + PairPending(t, p);
    assert |failed + PairDeferred(t, p)| == |failed| + |PairDeferred(t, p)|;
  }

  /**
   One item for each topic and group of the table; its counts split its rows, its failed rows are all
   accounted for by its classes, and each class is a recount of the rows whose error has that class.
   */
  method GetStat(rows: seq<StatRow>, cls: Classes, ghost t: Table) returns (list: seq<Item<Totals>>)
    requires JoinsErrors(rows, t)
    ensures DistinctPairs(list) && ItemPairs(list) == (set id | id in t :: PairOf(t[id]))
    ensures forall i | 0 <= i < |list| :: TotalsOf(list[i].counts, t, list[i].pair)
    ensures forall i | 0 <= i < |list| :: CountsOutright(list[i].counts, t, list[i].pair)
    ensures forall i | 0 <= i < |list| :: ItemRecounts(list[i], list[i].counts.failed, t, EVERY, cls)
  {
    var items := FoldStat(rows, t);
    list := GroupItems(items, cls);
    SamePairs(list, items);
    forall i | 0 <= i < |list| ensures CountsOutright(list[i].counts, t, list[i].pair) {
      TotalsAreCounts(list[i].counts, t, list[i].pair);
    }
    forall i | 0 <= i < |list| ensures ItemRecounts(list[i], list[i].counts.failed, t, EVERY, cls) {
      GroupedErrorsRecount(list[i], ErrorRows(rows), t, EVERY, cls);
    }
  }
}

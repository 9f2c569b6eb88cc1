/**
 Per-message failure statistics merged into per-class statistics. The class of a message is given by
 an arbitrary function; a missing time stands for the zero time, which is before every other.
 */
module ErrorClasses {
  import opened Wrappers
  import opened RetryRecords

  type Classes = Text -> Text

  datatype Stat = Stat(error: Text, sample: Text, failedCount: int, first: Option<int>, last: Option<int>)

  function SampleOf(s: Stat): Text {
    if s.sample.value == "" then s.error else s.sample
  }

  predicate Later(a: Option<int>, b: Option<int>) {
    a.Some? && (b.None? || a.value > b.value)
  }

  function Sum(stats: seq<Stat>): int {
    if stats == [] then 0 else Sum(stats[..|stats| - 1]) + stats[|stats| - 1].failedCount
  }

  /** The statistics whose message has class `c`, in their order. */
  function Members(stats: seq<Stat>, cls: Classes, c: Text): seq<Stat> {
    if stats == [] then []
    else
      var last := stats[|stats| - 1];
      Members(stats[..|stats| - 1], cls, c) + if cls(last.error) == c then [last] else []
  }

  function Earliest(ms: seq<Stat>): Option<int> {
    if ms == [] then None
    else
      var before, last := Earliest(ms[..|ms| - 1]), ms[|ms| - 1].first;
      if last.Some? && (before.None? || last.value < before.value) then last else before
  }

  /** The first of the statistics that failed last. */
  function Newest(ms: seq<Stat>): (k: nat)
    requires ms != []
    ensures k < |ms|
  {
    if |ms| == 1 then 0
    else
      var k := Newest(ms[..|ms| - 1]);
      if Later(ms[|ms| - 1].last, ms[k].last) then |ms| - 1 else k
  }

  function Summary(ms: seq<Stat>, c: Text): Stat
    requires ms != []
  {
    Stat(c, SampleOf(ms[Newest(ms)]), Sum(ms), Earliest(ms), ms[Newest(ms)].last)
  }

  /** `Earliest` is the minimum of the known times, and unknown only when all of them are. */
  lemma {:induction false} EarliestIsMinimum(ms: seq<Stat>)
    ensures Earliest(ms).None? <==> forall i | 0 <= i < |ms| :: ms[i].first.None?
    ensures Earliest(ms).Some? ==> exists i :: 0 <= i < |ms| && ms[i].first == Earliest(ms)
    ensures forall i | 0 <= i < |ms| && ms[i].first.Some? :: Earliest(ms).Some? && Earliest(ms).value <= ms[i].first.value
  {
    if ms != [] {
      var init, last := ms[..|ms| - 1], ms[|ms| - 1];
      EarliestIsMinimum(init);
      assert forall i | 0 <= i < |init| :: ms[i] == init[i];
      if Earliest(ms) == Earliest(init) && Earliest(ms).Some? {
        var i :| 0 <= i < |init| && init[i].first == Earliest(init);
        assert ms[i].first == Earliest(ms);
      }
    }
  }

  lemma {:induction false} NewestIsFirstMaximum(ms: seq<Stat>)
    requires ms != []
    ensures var k := Newest(ms);
      && (forall i | 0 <= i < |ms| :: !Later(ms[i].last, ms[k].last))
      && (forall i | 0 <= i < k :: Later(ms[k].last, ms[i].last))
  {
    if |ms| > 1 {
      var init := ms[..|ms| - 1];
      NewestIsFirstMaximum(init);
      assert forall i | 0 <= i < |init| :: ms[i] == init[i];
    }
  }

  // ---------------------------------------------------------------- merging

  function Absorb(into: Stat, s: Stat): Stat {
    into.(failedCount := into.failedCount + s.failedCount,
          first := if s.first.Some? && (into.first.None? || s.first.value < into.first.value) then s.first else into.first,
          last := if Later(s.last, into.last) then s.last else into.last,
          sample := if Later(s.last, into.last) then SampleOf(s) else into.sample)
  }

  method Merge(into: Stat, stat: Stat) returns (merged: Stat)
    ensures merged == Absorb(into, stat)
  {
    merged := into.(failedCount := into.failedCount + stat.failedCount);
    if stat.first.Some? && (merged.first.None? || stat.first.value < merged.first.value) {
      merged := merged.(first := stat.first);
    }
    if Later(stat.last, merged.last) {
      merged := merged.(last := stat.last);
      merged := merged.(sample := SampleOf(stat));
    }
  }

  lemma SummaryOfOne(s: Stat, c: Text)
    ensures Summary([s], c) == s.(error := c, sample := SampleOf(s))
  {
    assert [s][..0] == [];
    assert Sum([s]) == Sum([]) + s.failedCount;
    assert Earliest([s]) == s.first;
  }

  lemma SummaryOfMore(ms: seq<Stat>, s: Stat, c: Text)
    requires ms != []
    ensures Summary(ms + [s], c) == Absorb(Summary(ms, c), s)
  {
    assert (ms + [s])[..|ms|] == ms;
    assert (ms + [s])[Newest(ms)] == ms[Newest(ms)];
  }

  // ---------------------------------------------------------------- grouping

  function SummaryFor(stats: seq<Stat>, cls: Classes, c: Text): Option<Stat> {
    var ms := Members(stats, cls, c);
    if ms == [] then None else Some(Summary(ms, c))
  }

  predicate Summarizes(e: Stat, stats: seq<Stat>, cls: Classes) {
    SummaryFor(stats, cls, e.error) == Some(e)
  }

  predicate DistinctClasses(result: seq<Stat>) {
    forall i, j | 0 <= i < j < |result| :: result[i].error != result[j].error
  }

  /** The classes of the statistics. */
  function ClassesOf(stats: seq<Stat>, cls: Classes): set<Text> {
    if stats == [] then {} else ClassesOf(stats[..|stats| - 1], cls) + {cls(stats[|stats| - 1].error)}
  }

  function ErrorsOf(result: seq<Stat>): set<Text> {
    set i | 0 <= i < |result| :: result[i].error
  }

  /** Each entry summarizes exactly the statistics of its class; no class is missing or twice. */
  predicate Grouped(result: seq<Stat>, stats: seq<Stat>, cls: Classes) {
    && AllSummarize(result, stats, cls)
    && DistinctClasses(result)
    && ErrorsOf(result) == ClassesOf(stats, cls)
  }

  /** The index kept while merging: it maps exactly the classes of the result to their places. */
  predicate Indexes(index: map<Text, nat>, result: seq<Stat>) {
    && (forall c | c in index :: index[c] < |result| && result[index[c]].error == c)
    && (forall i | 0 <= i < |result| :: result[i].error in index && index[result[i].error] == i)
  }

  predicate AllSummarize(result: seq<Stat>, stats: seq<Stat>, cls: Classes) {
    forall i | 0 <= i < |result| :: Summarizes(result[i], stats, cls)
  }

  lemma {:induction false} SumReplaced(stats: seq<Stat>, k: nat, s: Stat)
    requires k < |stats|
    ensures Sum(stats[k := s]) == Sum(stats) - stats[k].failedCount + s.failedCount
  {
    var init := stats[..|stats| - 1];
    if k == |init| {
      assert stats[k := s][..k] == init;
    } else {
      SumReplaced(init, k, s);
      assert stats[k := s][..|init|] == init[k := s];
    }
  }

  lemma {:induction false} NoMembers(stats: seq<Stat>, cls: Classes, c: Text)
    requires c !in ClassesOf(stats, cls)
    ensures Members(stats, cls, c) == []
  {
    if stats != [] {
      NoMembers(stats[..|stats| - 1], cls, c);
    }
  }

  // The three ways one more statistic `stats[|stats| - 1]` affects an entry.

  lemma OtherClass(e: Stat, stats: seq<Stat>, cls: Classes)
    requires stats != [] && Summarizes(e, stats[..|stats| - 1], cls) && cls(stats[|stats| - 1].error) != e.error
    ensures Summarizes(e, stats, cls)
  {
    assert Members(stats, cls, e.error) == Members(stats[..|stats| - 1], cls, e.error);
  }

  lemma SameClass(e: Stat, stats: seq<Stat>, cls: Classes)
    requires stats != [] && Summarizes(e, stats[..|stats| - 1], cls) && cls(stats[|stats| - 1].error) == e.error
    ensures Summarizes(Absorb(e, stats[|stats| - 1]), stats, cls)
  {
    SummaryOfMore(Members(stats[..|stats| - 1], cls, e.error), stats[|stats| - 1], e.error);
  }

  lemma FirstOfClass(stats: seq<Stat>, cls: Classes)
    requires stats != [] && cls(stats[|stats| - 1].error) !in ClassesOf(stats[..|stats| - 1], cls)
    ensures var s := stats[|stats| - 1];
      Summarizes(s.(error := cls(s.error), sample := SampleOf(s)), stats, cls)
  {
    var s := stats[|stats| - 1];
    NoMembers(stats[..|stats| - 1], cls, cls(s.error));
    assert Members(stats, cls, cls(s.error)) == [s];
    SummaryOfOne(s, cls(s.error));
  }

  lemma NewClassSummaries(result: seq<Stat>, e: Stat, stats: seq<Stat>, cls: Classes)
    requires stats != [] && AllSummarize(result, stats[..|stats| - 1], cls) && Summarizes(e, stats, cls)
    requires forall i | 0 <= i < |result| :: result[i].error != cls(stats[|stats| - 1].error)
    ensures AllSummarize(result + [e], stats, cls)
  {
    forall i | 0 <= i < |result| ensures Summarizes(result[i], stats, cls) {
      OtherClass(result[i], stats, cls);
    }
  }

  lemma KnownClassSummaries(result: seq<Stat>, k: nat, stats: seq<Stat>, cls: Classes)
    requires stats != [] && AllSummarize(result, stats[..|stats| - 1], cls)
    requires k < |result| && result[k].error == cls(stats[|stats| - 1].error)
    requires forall i | 0 <= i < |result| && i != k :: result[i].error != cls(stats[|stats| - 1].error)
    ensures AllSummarize(result[k := Absorb(result[k], stats[|stats| - 1])], stats, cls)
  {
    forall i | 0 <= i < |result| && i != k ensures Summarizes(result[i], stats, cls) {
      OtherClass(result[i], stats, cls);
    }
    SameClass(result[k], stats, cls);
  }

  lemma SumNext(stats: seq<Stat>, s: Stat)
    ensures Sum(stats + [s]) == Sum(stats) + s.failedCount
  {
    assert (stats + [s])[..|stats|] == stats;
  }

  lemma IndexNewClass(index: map<Text, nat>, result: seq<Stat>, e: Stat)
    requires Indexes(index, result) && e.error !in index
    ensures Indexes(index[e.error := |result|], result + [e])
  {
  }

  lemma IndexKnownClass(index: map<Text, nat>, result: seq<Stat>, e: Stat)
    requires Indexes(index, result) && e.error in index
    ensures Indexes(index, result[index[e.error] := e])
  {
  }

  lemma IndexedErrors(index: map<Text, nat>, result: seq<Stat>)
    requires Indexes(index, result)
    ensures DistinctClasses(result) && ErrorsOf(result) == index.Keys
  {
    forall c | c in index ensures c in ErrorsOf(result) {
      assert result[index[c]].error == c;
    }
  }

  // ---------------------------------------------------------------- the merging loop

  /** The state of the loop: the entries so far and the place of every class. */
  datatype Merging = Merging(result: seq<Stat>, index: map<Text, nat>)

  predicate IndexFits(m: Merging) {
    forall c | c in m.index :: m.index[c] < |m.result|
  }

  function Step(m: Merging, s: Stat, cls: Classes): (m': Merging)
    requires IndexFits(m)
    ensures IndexFits(m')
  {
    var c := cls(s.error);
    if c !in m.index then
      Merging(m.result + [s.(error := c, sample := SampleOf(s))], m.index[c := |m.result|])
    else
      m.(result := m.result[m.index[c] := Absorb(m.result[m.index[c]], s)])
  }

  function Fold(stats: seq<Stat>, cls: Classes): (m: Merging)
    ensures IndexFits(m)
  {
    if stats == [] then Merging([], map[])
    else Step(Fold(stats[..|stats| - 1], cls), stats[|stats| - 1], cls)
  }

  lemma {:induction false} FoldIndexes(stats: seq<Stat>, cls: Classes)
    ensures Indexes(Fold(stats, cls).index, Fold(stats, cls).result)
    ensures Fold(stats, cls).index.Keys == ClassesOf(stats, cls)
  {
    if stats != [] {
      var init, s := stats[..|stats| - 1], stats[|stats| - 1];
      var m := Fold(init, cls);
      FoldIndexes(init, cls);
      if cls(s.error) !in m.index {
        IndexNewClass(m.index, m.result, s.(error := cls(s.error), sample := SampleOf(s)));
      } else {
        IndexKnownClass(m.index, m.result, Absorb(m.result[m.index[cls(s.error)]], s));
      }
    }
  }

  lemma {:induction false} FoldKeepsSum(stats: seq<Stat>, cls: Classes)
    ensures Sum(Fold(stats, cls).result) == Sum(stats)
  {
    if stats != [] {
      var init, s := stats[..|stats| - 1], stats[|stats| - 1];
      var m := Fold(init, cls);
      FoldKeepsSum(init, cls);
      if cls(s.error) !in m.index {
        SumNext(m.result, s.(error := cls(s.error), sample := SampleOf(s)));
      } else {
        var k := m.index[cls(s.error)];
        SumReplaced(m.result, k, Absorb(m.result[k], s));
      }
    }
  }

  lemma {:induction false} FoldSummarizes(stats: seq<Stat>, cls: Classes)
    ensures AllSummarize(Fold(stats, cls).result, stats, cls)
  {
    if stats != [] {
      var init, s := stats[..|stats| - 1], stats[|stats| - 1];
      var m := Fold(init, cls);
      FoldSummarizes(init, cls);
      FoldIndexes(init, cls);
      if cls(s.error) !in m.index {
        FirstOfClass(stats, cls);
        NewClassSummaries(m.result, s.(error := cls(s.error), sample := SampleOf(s)), stats, cls);
      } else {
        KnownClassSummaries(m.result, m.index[cls(s.error)], stats, cls);
      }
    }
  }

  lemma FoldGroups(stats: seq<Stat>, cls: Classes)
    ensures Grouped(Fold(stats, cls).result, stats, cls)
  {
    FoldSummarizes(stats, cls);
    FoldIndexes(stats, cls);
    IndexedErrors(Fold(stats, cls).index, Fold(stats, cls).result);
  }

  method MergeByClass(stats: seq<Stat>, cls: Classes) returns (result: seq<Stat>)
    ensures Grouped(result, stats, cls) && Sum(result) == Sum(stats)
  {
    result := [];
    var index: map<Text, nat> := map[];
    for k := 0 to |stats|
      invariant Fold(stats[..k], cls) == Merging(result, index)
    {
      var stat := stats[k];
      var c := cls(stat.error);
      assert stats[..k + 1][..k] == stats[..k];
      if c !in index {
        index := index[c := |result|];
        result := result + [stat.(error := c, sample := SampleOf(stat))];
      } else {
        var merged := Merge(result[index[c]], stat);
        result := result[index[c] := merged];
      }
    }
    assert stats[..|stats|] == stats;
    FoldGroups(stats, cls);
    FoldKeepsSum(stats, cls);
  }

  // ---------------------------------------------------------------- the order of the result

  /** The order of strings. */
  predicate Before(a: string, b: string) {
    b != "" && (a == "" || a[0] < b[0] || (a[0] == b[0] && Before(a[1..], b[1..])))
  }

  /** Before is the order of a dictionary: the first different character decides, and a proper prefix comes first. */
  lemma {:induction false} BeforeIsLexicographic(a: string, b: string)
    ensures Before(a, b) <==>
            exists k :: 0 <= k <= |a| && k < |b| && a[..k] == b[..k] && (k == |a| || a[k] < b[k])
  {
    if a != "" && b != "" && a[0] == b[0] {
      BeforeIsLexicographic(a[1..], b[1..]);
      if k :| 0 <= k <= |a[1..]| && k < |b[1..]| && a[1..][..k] == b[1..][..k] && (k == |a[1..]| || a[1..][k] < b[1..][k]) {
        assert a[..k + 1] == [a[0]] + a[1..][..k] && b[..k + 1] == [b[0]] + b[1..][..k];
        assert a[..k + 1] == b[..k + 1];
      }
      if k :| 0 <= k <= |a| && k < |b| && a[..k] == b[..k] && (k == |a| || a[k] < b[k]) {
        assert k > 0;
        assert a[1..][..k - 1] == a[..k][1..] == b[..k][1..] == b[1..][..k - 1];
      }
    } else if b != "" {
      assert a[..0] == b[..0];
      forall k | 0 < k <= |a| && k < |b| ensures a[..k] == b[..k] ==> a[0] == b[0] {
        FirstOfPrefix(a, b, k);
      }
    }
  }

  lemma FirstOfPrefix(a: string, b: string, k: nat)
    requires 0 < k <= |a| && k < |b|
    ensures a[..k] == b[..k] ==> a[0] == b[0]
  {
    assert a[..k][0] == a[0] && b[..k][0] == b[0];
  }

  lemma {:induction false} BeforeIsTotal(a: string, b: string)
    ensures Before(a, b) || Before(b, a) || a == b
    ensures !(Before(a, b) && Before(b, a))
  {
    if a != "" && b != "" && a[0] == b[0] {
      BeforeIsTotal(a[1..], b[1..]);
      assert a[1..] == b[1..] ==> a == [a[0]] + a[1..] == b;
    }
  }

  lemma {:induction false} BeforeIsTransitive(a: string, b: string, c: string)
    requires Before(a, b) && Before(b, c)
    ensures Before(a, c)
  {
    if a != "" && a[0] == b[0] && b[0] == c[0] {
      BeforeIsTransitive(a[1..], b[1..], c[1..]);
    }
  }

  /** Larger counts first, classes in order of their text among equal counts. */
  predicate Precedes(x: Stat, y: Stat) {
    x.failedCount > y.failedCount || (x.failedCount == y.failedCount && Before(x.error.value, y.error.value))
  }

  predicate StrictlySorted(s: seq<Stat>) {
    forall i, j | 0 <= i < j < |s| :: Precedes(s[i], s[j])
  }

  lemma PrecedesIsTotal(x: Stat, y: Stat)
    ensures Precedes(x, y) || Precedes(y, x) || x.error == y.error
    ensures !(Precedes(x, y) && Precedes(y, x))
  {
    BeforeIsTotal(x.error.value, y.error.value);
  }

  lemma PrecedesIsTransitive(x: Stat, y: Stat, z: Stat)
    requires Precedes(x, y) && Precedes(y, z)
    ensures Precedes(x, z)
  {
    if x.failedCount == y.failedCount == z.failedCount {
      BeforeIsTransitive(x.error.value, y.error.value, z.error.value);
    }
  }

  lemma {:induction false} SumOfConcat(a: seq<Stat>, b: seq<Stat>)
    ensures Sum(a + b) == Sum(a) + Sum(b)
  {
    if b == [] {
      assert a + b == a;
    } else {
      SumOfConcat(a, b[..|b| - 1]);
      assert (a + b)[..|a + b| - 1] == a + b[..|b| - 1];
    }
  }

  function InsertAt(s: seq<Stat>, p: nat, x: Stat): seq<Stat>
    requires p <= |s|
  {
    s[..p] + [x] + s[p..]
  }

  lemma InsertedIsSorted(s: seq<Stat>, p: nat, x: Stat)
    requires StrictlySorted(s) && p <= |s|
    requires forall i | 0 <= i < p :: Precedes(s[i], x)
    requires p < |s| ==> Precedes(x, s[p])
    ensures StrictlySorted(InsertAt(s, p, x))
  {
    forall j | p <= j < |s| ensures Precedes(x, s[j]) {
      if j > p {
        PrecedesIsTransitive(x, s[p], s[j]);
      }
    }
  }

  lemma InsertedEntries(s: seq<Stat>, p: nat, x: Stat)
    requires p <= |s|
    ensures multiset(InsertAt(s, p, x)) == multiset(s + [x])
    ensures Sum(InsertAt(s, p, x)) == Sum(s + [x])
  {
    assert s == s[..p] + s[p..];
    SumOfConcat(s[..p], [x]);
    SumOfConcat(s[..p] + [x], s[p..]);
    SumOfConcat(s[..p], s[p..]);
    SumOfConcat(s, [x]);
  }

  method Insert(s: seq<Stat>, x: Stat) returns (r: seq<Stat>)
    requires StrictlySorted(s) && forall i | 0 <= i < |s| :: s[i].error != x.error
    ensures StrictlySorted(r) && multiset(r) == multiset(s + [x]) && Sum(r) == Sum(s + [x])
  {
    var p := 0;
    while p < |s| && Precedes(s[p], x)
      invariant p <= |s| && forall i | 0 <= i < p :: Precedes(s[i], x)
    {
      p := p + 1;
    }
    if p < |s| {
      PrecedesIsTotal(s[p], x);
    }
    InsertedIsSorted(s, p, x);
    InsertedEntries(s, p, x);
    r := InsertAt(s, p, x);
  }

  method InsertNext(s: seq<Stat>, x: Stat, ghost seen: seq<Stat>) returns (r: seq<Stat>)
    requires StrictlySorted(s) && multiset(s) == multiset(seen) && Sum(s) == Sum(seen)
    requires forall i | 0 <= i < |seen| :: seen[i].error != x.error
    ensures StrictlySorted(r) && multiset(r) == multiset(seen + [x]) && Sum(r) == Sum(seen + [x])
  {
    forall i | 0 <= i < |s| ensures s[i].error != x.error {
      assert s[i] in multiset(seen);
    }
    SumNext(s, x);
    SumNext(seen, x);
    r := Insert(s, x);
  }

  method SortStats(stats: seq<Stat>) returns (r: seq<Stat>)
    requires DistinctClasses(stats)
    ensures StrictlySorted(r) && multiset(r) == multiset(stats) && Sum(r) == Sum(stats)
  {
    r := [];
    ghost var seen: seq<Stat> := [];
    for k := 0 to |stats|
      invariant |seen| == k && forall i | 0 <= i < k :: seen[i] == stats[i]
      invariant StrictlySorted(r) && multiset(r) == multiset(seen) && Sum(r) == Sum(seen)
    {
      r := InsertNext(r, stats[k], seen);
      seen := seen + [stats[k]];
    }
    assert seen == stats;
  }

  predicate SameEntries(a: seq<Stat>, b: seq<Stat>) {
    (forall i | 0 <= i < |a| :: a[i] in b) && (forall i | 0 <= i < |b| :: b[i] in a)
  }

  /** A strictly sorted list is determined by its entries. */
  lemma {:induction false} SortedIsUnique(a: seq<Stat>, b: seq<Stat>)
    requires StrictlySorted(a) && StrictlySorted(b) && SameEntries(a, b)
    ensures a == b
  {
    assert a != [] ==> a[0] in b;
    assert b != [] ==> b[0] in a;
    if a != [] && b != [] {
      var j :| 0 <= j < |b| && b[j] == a[0];
      var i :| 0 <= i < |a| && a[i] == b[0];
      PrecedesIsTotal(a[0], b[0]);
      assert i == 0 && j == 0;
      TailEntries(a, b);
      TailEntries(b, a);
      SortedIsUnique(a[1..], b[1..]);
    }
  }

  lemma TailEntries(a: seq<Stat>, b: seq<Stat>)
    requires a != [] && b != [] && a[0] == b[0] && StrictlySorted(a) && SameEntries(a, b)
    ensures forall k | 0 <= k < |a[1..]| :: a[1..][k] in b[1..]
  {
    forall k | 0 <= k < |a[1..]| ensures a[1..][k] in b[1..] {
      assert a[k + 1] in b;
      PrecedesIsTotal(a[0], a[k + 1]);
      var j :| 0 <= j < |b| && b[j] == a[k + 1];
      assert Precedes(a[0], a[k + 1]);
      assert j > 0 && b[1..][j - 1] == b[j];
    }
  }

  lemma SortedKeepsGroups(r: seq<Stat>, merged: seq<Stat>, stats: seq<Stat>, cls: Classes)
    requires Grouped(merged, stats, cls) && SameEntries(r, merged) && StrictlySorted(r)
    ensures Grouped(r, stats, cls)
  {
    forall i | 0 <= i < |r| ensures Summarizes(r[i], stats, cls) {
      var k :| 0 <= k < |merged| && merged[k] == r[i];
    }
    forall i, j | 0 <= i < j < |r| ensures r[i].error != r[j].error {
      var k :| 0 <= k < |merged| && merged[k] == r[i];
      var l :| 0 <= l < |merged| && merged[l] == r[j];
      PrecedesIsTotal(r[i], r[j]);
    }
    forall c ensures c in ErrorsOf(r) <==> c in ErrorsOf(merged) {
      if i :| 0 <= i < |r| && r[i].error == c {
        var k :| 0 <= k < |merged| && merged[k] == r[i];
      }
      if k :| 0 <= k < |merged| && merged[k].error == c {
        assert merged[k] in r;
        var i :| 0 <= i < |r| && r[i] == merged[k];
      }
    }
  }

  /**
   One entry per class of the input, each the recount of its class, strictly ordered by count and
   class; the failures of the input are all counted, once each.
   */
  method GroupByClass(stats: seq<Stat>, cls: Classes) returns (result: seq<Stat>)
    ensures Grouped(result, stats, cls) && StrictlySorted(result)
    ensures Sum(result) == Sum(stats)
    ensures forall i, j | 0 <= i < j < |result| ::
      || result[i].failedCount > result[j].failedCount
      || (result[i].failedCount == result[j].failedCount && Before(result[i].error.value, result[j].error.value))
  {
    var merged := MergeByClass(stats, cls);
    result := SortStats(merged);
    forall i | 0 <= i < |result| ensures result[i] in merged {
      assert result[i] in multiset(result);
    }
    forall i | 0 <= i < |merged| ensures merged[i] in result {
      assert merged[i] in multiset(merged);
    }
    SortedKeepsGroups(result, merged, stats, cls);
  }

  /** The promises above leave no freedom: there is one such result for each input. */
  lemma GroupingIsUnique(a: seq<Stat>, b: seq<Stat>, stats: seq<Stat>, cls: Classes)
    requires Grouped(a, stats, cls) && StrictlySorted(a)
    requires Grouped(b, stats, cls) && StrictlySorted(b)
    ensures a == b
  {
    EntriesAgree(a, b, stats, cls);
    EntriesAgree(b, a, stats, cls);
    SortedIsUnique(a, b);
  }

  lemma EntriesAgree(a: seq<Stat>, b: seq<Stat>, stats: seq<Stat>, cls: Classes)
    requires Grouped(a, stats, cls) && Grouped(b, stats, cls)
    ensures forall i | 0 <= i < |a| :: a[i] in b
  {
    forall i | 0 <= i < |a| ensures a[i] in b {
      assert a[i].error in ErrorsOf(b);
      var j :| 0 <= j < |b| && b[j].error == a[i].error;
      assert Summarizes(a[i], stats, cls) && Summarizes(b[j], stats, cls);
    }
  }

  // ---------------------------------------------------------------- messages of a class

  function OfSameClass(messages: seq<Text>, cls: Classes, c: Text): seq<Text> {
    if messages == [] then []
    else
      var last := messages[|messages| - 1];
      OfSameClass(messages[..|messages| - 1], cls, c) + if cls(last) == c then [last] else []
  }

  lemma {:induction false} OfSameClassMembers(messages: seq<Text>, cls: Classes, c: Text, m: Text)
    ensures m in OfSameClass(messages, cls, c) <==> m in messages && cls(m) == c
  {
    if messages != [] {
      var init, last := messages[..|messages| - 1], messages[|messages| - 1];
      OfSameClassMembers(init, cls, c, m);
      assert messages == init + [last];
    }
  }

  method ErrorsOfClass(messages: seq<Text>, message: Text, cls: Classes) returns (result: seq<Text>)
    ensures result == OfSameClass(messages, cls, cls(message))
    ensures forall m :: m in result <==> m in messages && cls(m) == cls(message)
  {
    var c := cls(message);
    result := [];
    for k := 0 to |messages|
      invariant result == OfSameClass(messages[..k], cls, c)
    {
      assert messages[..k + 1][..k] == messages[..k];
      if cls(messages[k]) == c {
        result := result + [messages[k]];
      }
    }
    assert messages[..|messages|] == messages;
    forall m ensures m in result <==> m in messages && cls(m) == cls(message) {
      OfSameClassMembers(messages, cls, c, m);
    }
  }
}

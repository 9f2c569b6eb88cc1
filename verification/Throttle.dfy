/**
 The error throttle of the flusher: one report per key through every interval, with the number of
 reports suppressed since. The clock is an input of each call and need not be monotone.
 */
module Throttle {
  import opened Wrappers

  datatype Entry = Entry(last: int, suppressed: nat)

  datatype Call = Call(key: string, now: int)

  type Keys = map<string, Entry>

  /** Whether a report is suppressed. */
  predicate Suppresses(keys: Keys, interval: int, c: Call) {
    c.key in keys && c.now - keys[c.key].last < interval
  }

  /** The count handed to the emitted report, if it is emitted. */
  function Emission(keys: Keys, interval: int, c: Call): Option<nat> {
    if Suppresses(keys, interval, c) then None
    else Some(if c.key in keys then keys[c.key].suppressed else 0)
  }

  function After(keys: Keys, interval: int, c: Call): Keys {
    if Suppresses(keys, interval, c) then keys[c.key := Entry(keys[c.key].last, keys[c.key].suppressed + 1)]
    else keys[c.key := Entry(c.now, 0)]
  }

  /** The throttle of the Go client: one map from key to its last report and suppressed count. */
  class ErrorThrottle {
    const interval: int
    var keys: Keys

    constructor (interval: int)
      ensures this.interval == interval && keys == map[]
    {
      this.interval, keys := interval, map[];
    }

    /** Returns the suppressed count to emit, or nothing if this report is itself suppressed. */
    method Report(key: string, now: int) returns (emit: Option<nat>)
      modifies this
      ensures emit == Emission(old(keys), interval, Call(key, now))
      ensures keys == After(old(keys), interval, Call(key, now))
      ensures emit.None? <==> key in old(keys) && now - old(keys)[key].last < interval
      ensures emit.None? ==> keys == old(keys)[key := Entry(old(keys)[key].last, old(keys)[key].suppressed + 1)]
      ensures emit.Some? ==> keys == old(keys)[key := Entry(now, 0)]
      ensures emit.Some? ==> emit.value == if key in old(keys) then old(keys)[key].suppressed else 0
    {
      if key in keys && now - keys[key].last < interval {
        keys := keys[key := keys[key].(suppressed := keys[key].suppressed + 1)];
        return None;
      }
      if key !in keys {
        keys := keys[key := Entry(0, 0)];
      }
      var suppressed := keys[key].suppressed;
      keys := keys[key := Entry(now, 0)];
      return Some(suppressed);
    }
  }

  /** The throttle of the Scala client: a map of last reports and a map of positive counts. */
  class ScalaErrorThrottle {
    const interval: int
    var lastReported: map<string, int>
    var suppressed: map<string, nat>

    ghost predicate Represents(keys: Keys)
      reads this
    {
      && lastReported.Keys == keys.Keys
      && suppressed.Keys <= keys.Keys
      && forall k :: k in keys ==> keys[k] == Entry(lastReported[k], if k in suppressed then suppressed[k] else 0)
    }

    constructor (interval: int)
      ensures this.interval == interval && Represents(map[])
    {
      this.interval, lastReported, suppressed := interval, map[], map[];
    }

    /** Reports exactly as the Go throttle does in the state it represents. */
    method Report(key: string, now: int, ghost keys: Keys) returns (emit: Option<nat>)
      requires Represents(keys)
      modifies this
      ensures emit == Emission(keys, interval, Call(key, now))
      ensures Represents(After(keys, interval, Call(key, now)))
    {
      if key in lastReported && now - lastReported[key] < interval {
        suppressed := suppressed[key := (if key in suppressed then suppressed[key] else 0) + 1];
        return None;
      }
      var count := if key in suppressed then suppressed[key] else 0;
      lastReported := lastReported[key := now];
      suppressed := map k | k in suppressed && k != key :: suppressed[k];
      return Some(count);
    }
  }

  // ----- Sequences of calls -----

  function KeysAfter(calls: seq<Call>, interval: int): Keys {
    if calls == [] then map[]
    else After(KeysAfter(calls[..|calls| - 1], interval), interval, calls[|calls| - 1])
  }

  function EmissionAt(calls: seq<Call>, interval: int, i: nat): Option<nat>
    requires i < |calls|
  {
    Emission(KeysAfter(calls[..i], interval), interval, calls[i])
  }

  /** Calls for one key. */
  function Calls(calls: seq<Call>, key: string): nat {
    if calls == [] then 0
    else Calls(calls[..|calls| - 1], key) + if calls[|calls| - 1].key == key then 1 else 0
  }

  /** Reports let through for a key. */
  function Emitted(calls: seq<Call>, interval: int, key: string): nat {
    if calls == [] then 0
    else
      var c := calls[|calls| - 1];
      Emitted(calls[..|calls| - 1], interval, key)
      + if c.key == key && EmissionAt(calls, interval, |calls| - 1).Some? then 1 else 0
  }

  /** The suppressed counts handed to the reports let through for a key, added up. */
  function HandedOut(calls: seq<Call>, interval: int, key: string): nat {
    if calls == [] then 0
    else
      var c := calls[|calls| - 1];
      var e := EmissionAt(calls, interval, |calls| - 1);
      HandedOut(calls[..|calls| - 1], interval, key) + if c.key == key && e.Some? then e.value else 0
  }

  function Pending(keys: Keys, key: string): nat {
    if key in keys then keys[key].suppressed else 0
  }

  /** No report is forgotten: each was let through, counted in a later one, or is still to be counted. */
  lemma {:induction false} EveryReportCounted(calls: seq<Call>, interval: int, key: string)
    ensures Emitted(calls, interval, key) + HandedOut(calls, interval, key) + Pending(KeysAfter(calls, interval), key) == Calls(calls, key)
  {
    if calls != [] {
      EveryReportCounted(calls[..|calls| - 1], interval, key);
    }
  }

  /** The entry of a key remembers the clock of its last report let through; without one there is no entry. */
  lemma {:induction false} LastIsRemembered(calls: seq<Call>, interval: int, key: string)
    ensures var keys := KeysAfter(calls, interval);
            if key in keys
            then exists i :: 0 <= i < |calls| && LastEmission(calls, interval, key, i) && calls[i].now == keys[key].last
            else Calls(calls, key) == 0
  {
    if calls != [] {
      var n := |calls| - 1;
      var init := calls[..n];
      LastIsRemembered(init, interval, key);
      EmissionsOfPrefix(calls, interval, n);
      if calls[n].key == key && EmissionAt(calls, interval, n).Some? {
        assert LastEmission(calls, interval, key, n);
      } else if key in KeysAfter(init, interval) {
        var i :| 0 <= i < n && LastEmission(init, interval, key, i) && init[i].now == KeysAfter(init, interval)[key].last;
        assert LastEmission(calls, interval, key, i);
      }
    }
  }

  lemma EmissionsOfPrefix(calls: seq<Call>, interval: int, n: nat)
    requires n <= |calls|
    ensures forall j :: 0 <= j < n ==> EmissionAt(calls[..n], interval, j) == EmissionAt(calls, interval, j)
  {
    assert forall j :: 0 <= j < n ==> calls[..n][..j] == calls[..j];
  }

  ghost predicate LastEmission(calls: seq<Call>, interval: int, key: string, i: nat)
    requires i < |calls|
  {
    && calls[i].key == key && EmissionAt(calls, interval, i).Some?
    && forall j :: i < j < |calls| && calls[j].key == key ==> EmissionAt(calls, interval, j).None?
  }

  /** Two consecutive reports let through for a key are at least the interval apart, whatever the clock does. */
  lemma ReportsSpaced(calls: seq<Call>, interval: int, i: nat, j: nat)
    requires i < j < |calls| && calls[i].key == calls[j].key
    requires EmissionAt(calls, interval, i).Some? && EmissionAt(calls, interval, j).Some?
    requires forall k :: i < k < j && calls[k].key == calls[i].key ==> EmissionAt(calls, interval, k).None?
    ensures calls[j].now - calls[i].now >= interval
  {
    var before, key := calls[..j], calls[i].key;
    LastIsRemembered(before, interval, key);
    EmissionsOfPrefix(calls, interval, j);
    CallsPositive(before, i);
    var l :| 0 <= l < j && LastEmission(before, interval, key, l) && before[l].now == KeysAfter(before, interval)[key].last;
    assert LastEmission(before, interval, key, i);
    assert l == i;
  }

  /** Call i is the last report let through for the key of call j before it. */
  ghost predicate LastBefore(calls: seq<Call>, interval: int, i: nat, j: nat)
    requires i < j < |calls|
  {
    && calls[i].key == calls[j].key && EmissionAt(calls, interval, i).Some?
    && forall k :: i < k < j && calls[k].key == calls[j].key ==> EmissionAt(calls, interval, k).None?
  }

  lemma LastBeforePrefix(calls: seq<Call>, interval: int, i: nat, j: nat)
    requires i < j < |calls|
    ensures LastBefore(calls, interval, i, j) <==> LastEmission(calls[..j], interval, calls[j].key, i)
  {
    EmissionsOfPrefix(calls, interval, j);
  }

  /**
   A report is let through if and only if none of its key was let through before or the last one that
   was is at least the interval ago: the throttle never falls silent.
   */
  lemma LetThroughIff(calls: seq<Call>, interval: int, j: nat)
    requires j < |calls|
    ensures EmissionAt(calls, interval, j).Some?
            <==> forall i :: 0 <= i < j && LastBefore(calls, interval, i, j) ==> calls[j].now - calls[i].now >= interval
  {
    var before, key := calls[..j], calls[j].key;
    LastIsRemembered(before, interval, key);
    forall i | 0 <= i < j ensures LastBefore(calls, interval, i, j) <==> LastEmission(before, interval, key, i) {
      LastBeforePrefix(calls, interval, i, j);
    }
    if key in KeysAfter(before, interval) {
      var l :| 0 <= l < j && LastEmission(before, interval, key, l) && before[l].now == KeysAfter(before, interval)[key].last;
      assert LastBefore(calls, interval, l, j);
      assert calls[l].now == KeysAfter(before, interval)[key].last;
      forall i | 0 <= i < j && LastBefore(calls, interval, i, j) ensures i == l {
      }
    } else {
      forall i | 0 <= i < j ensures calls[i].key != key {
        if calls[i].key == key {
          CallsPositive(before, i);
        }
      }
    }
  }

  /** The count handed to a report is the number of calls for its key since the last one let through. */
  lemma {:induction false} HandedIsSuppressed(calls: seq<Call>, interval: int, key: string, i: nat)
    requires i < |calls| && LastEmission(calls, interval, key, i)
    ensures key in KeysAfter(calls, interval) && KeysAfter(calls, interval)[key].suppressed == Calls(calls[i + 1..], key)
  {
    var n := |calls| - 1;
    assert calls[..n + 1] == calls;
    if i < n {
      EmissionsOfPrefix(calls, interval, n);
      HandedIsSuppressed(calls[..n], interval, key, i);
      assert calls[i + 1..][..n - i - 1] == calls[..n][i + 1..];
    }
  }

  /** The first report of a key carries zero, a later one the calls for its key since the one before. */
  lemma EmittedCount(calls: seq<Call>, interval: int, i: nat, j: nat)
    requires i < j < |calls| && LastBefore(calls, interval, i, j) && EmissionAt(calls, interval, j).Some?
    ensures EmissionAt(calls, interval, j).value == Calls(calls[i + 1..j], calls[j].key)
  {
    LastBeforePrefix(calls, interval, i, j);
    HandedIsSuppressed(calls[..j], interval, calls[j].key, i);
    assert calls[..j][i + 1..] == calls[i + 1..j];
  }

  lemma {:induction false} CallsPositive(calls: seq<Call>, i: nat)
    requires i < |calls|
    ensures Calls(calls, calls[i].key) > 0
  {
    if i < |calls| - 1 {
      CallsPositive(calls[..|calls| - 1], i);
    }
  }
}

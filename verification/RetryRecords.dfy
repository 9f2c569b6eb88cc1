/**
 A stored retry and what one delivery of it does. The class is the in-memory copy the repeater
 changes in place; `Record` is its value, and also a row of the table.
 */
module RetryRecords {
  import opened Wrappers
  import opened Backoff

  datatype Text = Text(value: string)

  /** The content of a message as it was received. */
  datatype Payload = Payload(key: Option<seq<int>>, data: seq<int>, headers: map<string, string>)

  datatype Record = Record(
    id: int, topic: Text, group: Text, consumer: Text, message: Text, payload: Payload,
    strategy: Option<Strategy>,
    attempt: int, error: Text, deferred: bool, startedAt: int, finishedAt: Option<int>)
  {
    predicate Finished() {
      finishedAt.Some?
    }

    function Effective(standard: Strategy): Strategy {
      if strategy.Some? then strategy.value else standard
    }

    /** The attempts a record may spend before it is finished; a negative setting allows none. */
    function Budget(standard: Strategy): nat {
      var most := Effective(standard).maxAttempts;
      if most > 0 then most else 0
    }
  }

  /** What the table promises of every row: a postponed retry is still pending. */
  predicate Consistent(r: Record) {
    r.deferred ==> !r.Finished()
  }

  /** The first result of a delivery that was not ok. */
  datatype Failure = Failure(retryLater: bool, retryAfter: int)

  const ORDINARY := Failure(false, 0)

  function Postponed(r: Record, standard: Strategy, now: int): Record {
    r.(deferred := true,
       finishedAt := None,
       startedAt := now + Delay(r.Effective(standard), r.attempt + 1))
  }

  function NextAttempt(r: Record, standard: Strategy, now: int): Record {
    if r.Effective(standard).maxAttempts <= r.attempt then
      r.(deferred := false, finishedAt := Some(now))
    else
      r.(deferred := false,
         attempt := r.attempt + 1,
         startedAt := now + Delay(r.Effective(standard), r.attempt + 1))
  }

  function AfterFailure(r: Record, f: Failure, standard: Strategy, now: int): Record {
    var next := if f.retryLater then Postponed(r, standard, now) else NextAttempt(r, standard, now);
    if !next.Finished() && f.retryAfter > 0 then next.(startedAt := now + f.retryAfter) else next
  }

  class Repeat {
    const id: int
    const topic: Text
    const group: Text
    const consumer: Text
    const message: Text
    const payload: Payload
    const strategy: Option<Strategy>
    var attempt: int
    var error: Text
    var deferred: bool
    var startedAt: int
    var finishedAt: Option<int>

    constructor (r: Record)
      ensures Value() == r
    {
      id, topic, group, consumer := r.id, r.topic, r.group, r.consumer;
      message, payload, strategy := r.message, r.payload, r.strategy;
      attempt, error, deferred := r.attempt, r.error, r.deferred;
      startedAt, finishedAt := r.startedAt, r.finishedAt;
    }

    function Value(): (r: Record)
      reads this
      ensures r.id == id && r.consumer == consumer
    {
      Record(id, topic, group, consumer, message, payload, strategy,
             attempt, error, deferred, startedAt, finishedAt)
    }

    method SetZeroAttempt(standard: Strategy, now: int)
      modifies this`attempt, this`startedAt
      ensures attempt == 0
      ensures startedAt == now + Delay(Value().Effective(standard), old(attempt))
    {
      var effective := standard;
      if strategy.Some? {
        effective := strategy.value;
      }
      startedAt := GetNextStartedAt(effective, now, attempt);
      attempt := 0;
    }

    method ApplyNextAttempt(standard: Strategy, now: int)
      modifies this
      ensures Value() == NextAttempt(old(Value()), standard, now)
    {
      deferred := false;
      var effective := standard;
      if strategy.Some? {
        effective := strategy.value;
      }
      if effective.maxAttempts <= attempt {
        finishedAt := Some(now);
        return;
      }
      attempt := attempt + 1;
      startedAt := GetNextStartedAt(effective, now, attempt);
    }

    method ApplyFailure(standard: Strategy, retryLater: bool, retryAfter: int, now: int)
      modifies this
      ensures Value() == AfterFailure(old(Value()), Failure(retryLater, retryAfter), standard, now)
      ensures deferred == retryLater && error == old(error)
      ensures retryLater ==> attempt == old(attempt) && finishedAt == None
      ensures !retryLater && Value().Effective(standard).maxAttempts <= old(attempt) ==>
                attempt == old(attempt) && startedAt == old(startedAt) && finishedAt == Some(now)
      ensures !retryLater && Value().Effective(standard).maxAttempts > old(attempt) ==>
                attempt == old(attempt) + 1 && finishedAt == old(finishedAt)
      ensures finishedAt == None ==>
                startedAt == now + if retryAfter > 0 then retryAfter else Delay(Value().Effective(standard), old(attempt) + 1)
    {
      if retryLater {
        var effective := standard;
        if strategy.Some? {
          effective := strategy.value;
        }
        deferred := true;
        finishedAt := None;
        startedAt := GetNextStartedAt(effective, now, attempt + 1);
      } else {
        ApplyNextAttempt(standard, now);
      }
      if finishedAt.None? && retryAfter > 0 {
        startedAt := now + retryAfter;
      }
    }
  }

  /** What one failed delivery changes of a record, field by field; everything else stays. */
  lemma FailureChanges(r: Record, f: Failure, standard: Strategy, now: int)
    ensures var n, s := AfterFailure(r, f, standard, now), if r.strategy.Some? then r.strategy.value else standard;
      && n == r.(attempt := n.attempt, deferred := f.retryLater, startedAt := n.startedAt, finishedAt := n.finishedAt)
      && (f.retryLater ==> n.attempt == r.attempt && n.finishedAt == None)
      && (!f.retryLater && s.maxAttempts <= r.attempt ==>
            n.attempt == r.attempt && n.startedAt == r.startedAt && n.finishedAt == Some(now))
      && (!f.retryLater && r.attempt < s.maxAttempts ==> n.attempt == r.attempt + 1 && n.finishedAt == r.finishedAt)
      && (n.finishedAt == None ==> n.startedAt == now + if f.retryAfter > 0 then f.retryAfter else Delay(s, r.attempt + 1))
  {
  }

  // ---------------------------------------------------------------- a chain of deliveries

  /** The record after a series of failed deliveries; a finished record is not delivered again. */
  function Chain(r: Record, fs: seq<Failure>, standard: Strategy, now: int): Record {
    if fs == [] then r
    else
      var before := Chain(r, fs[..|fs| - 1], standard, now);
      if before.Finished() then before else AfterFailure(before, fs[|fs| - 1], standard, now)
  }

  function Ordinary(fs: seq<Failure>): nat {
    if fs == [] then 0
    else Ordinary(fs[..|fs| - 1]) + if fs[|fs| - 1].retryLater then 0 else 1
  }

  lemma {:induction false} ChainKeepsStrategy(r: Record, fs: seq<Failure>, standard: Strategy, now: int)
    ensures Chain(r, fs, standard, now).strategy == r.strategy
  {
    if fs != [] {
      ChainKeepsStrategy(r, fs[..|fs| - 1], standard, now);
    }
  }

  /**
   A fresh record is finished by exactly Budget + 1 ordinary failures, whatever postponements come
   between them; until then its attempt counts the ordinary failures.
   */
  lemma {:induction false} ExhaustedExactly(r: Record, fs: seq<Failure>, standard: Strategy, now: int)
    requires r.attempt == 0 && !r.Finished()
    ensures var end := Chain(r, fs, standard, now);
      && (end.Finished() <==> Ordinary(fs) > r.Budget(standard))
      && (end.Finished() ==> end.attempt == r.Budget(standard) && !end.deferred)
      && (!end.Finished() ==> end.attempt == Ordinary(fs))
      && (!end.Finished() && fs != [] ==> (end.deferred <==> fs[|fs| - 1].retryLater))
  {
    if fs != [] {
      ExhaustedExactly(r, fs[..|fs| - 1], standard, now);
      ChainKeepsStrategy(r, fs[..|fs| - 1], standard, now);
    }
  }

  /** A chain never takes back an attempt, and ends where it first finishes the record. */
  lemma {:induction false} ChainGoesOn(r: Record, fs: seq<Failure>, gs: seq<Failure>, standard: Strategy, now: int)
    ensures Chain(r, fs, standard, now).attempt <= Chain(r, fs + gs, standard, now).attempt
    ensures Chain(r, fs, standard, now).Finished() ==> Chain(r, fs + gs, standard, now).Finished()
  {
    if gs == [] {
      assert fs + gs == fs;
    } else {
      ChainGoesOn(r, fs, gs[..|gs| - 1], standard, now);
      assert (fs + gs)[..|fs + gs| - 1] == fs + gs[..|gs| - 1];
    }
  }

  lemma LastWait(r: Record, fs: seq<Failure>, standard: Strategy, now: int)
    requires fs != [] && fs[|fs| - 1].retryAfter <= 0 && !Chain(r, fs, standard, now).Finished()
    ensures var before := Chain(r, fs[..|fs| - 1], standard, now);
      && before.attempt <= Chain(r, fs, standard, now).attempt
      && Chain(r, fs, standard, now).startedAt == now + Delay(r.Effective(standard), before.attempt + 1)
  {
    ChainKeepsStrategy(r, fs[..|fs| - 1], standard, now);
  }

  /**
   Of any two failures in a chain that carry no delay chosen by the consumer, the later one never waits
   less, however failures, postponements and the consumer's own delays mix in between.
   */
  lemma ChainWaitsLonger(r: Record, fs: seq<Failure>, gs: seq<Failure>, standard: Strategy, now: int)
    requires r.Effective(standard).interval >= 0
    requires fs != [] && gs != [] && fs[|fs| - 1].retryAfter <= 0 && gs[|gs| - 1].retryAfter <= 0
    requires !Chain(r, fs + gs, standard, now).Finished()
    ensures Chain(r, fs, standard, now).startedAt <= Chain(r, fs + gs, standard, now).startedAt
  {
    var all := fs + gs;
    assert all[..|all| - 1] == fs + gs[..|gs| - 1];
    ChainGoesOn(r, fs, gs, standard, now);
    ChainGoesOn(r, fs, gs[..|gs| - 1], standard, now);
    LastWait(r, fs, standard, now);
    LastWait(r, all, standard, now);
    DelaysNeverDecrease(r.Effective(standard), Chain(r, fs[..|fs| - 1], standard, now).attempt + 1,
                        Chain(r, all[..|all| - 1], standard, now).attempt + 1);
  }
}

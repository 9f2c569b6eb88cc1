/**
 The table of retries and everyone who writes it: consumers that add a row, any number of repeaters
 that work on copies read earlier, and an operator who restarts or deletes failed rows. Every SQL
 statement is one step; a repeater's copy may be stale by the time it is written back.
 */
module RetryTable {
  import opened Wrappers
  import opened Backoff
  import opened RetryRecords

  type Table = map<int, Record>

  /** What a consumer hands over with its first failed delivery of a message. */
  datatype RepeatData = RepeatData(
    topic: Text, group: Text, consumer: Text, message: Text, payload: Payload, strategy: Option<Strategy>)

  /** The row stored for it: due after the consumer's own delay or the first delay of the strategy. */
  function FirstRow(id: int, data: RepeatData, error: Text, retryLater: bool, retryAfter: int, standard: Strategy, now: int): Record {
    var effective := if data.strategy.Some? then data.strategy.value else standard;
    Record(id, data.topic, data.group, data.consumer, data.message, data.payload, data.strategy, 0, error, retryLater,
           now + (if retryAfter > 0 then retryAfter else Delay(effective, 0)), None)
  }

  // ---------------------------------------------------------------- statements

  /** UPDATE by id: the five columns of the copy replace the row's, if the row still exists. */
  function UpdateAttempt(t: Table, r: Record): Table {
    if r.id in t then
      t[r.id := t[r.id].(attempt := r.attempt, error := r.error, deferred := r.deferred,
                         startedAt := r.startedAt, finishedAt := r.finishedAt)]
    else t
  }

  function Remove(t: Table, id: int): Table {
    map k | k in t && k != id :: t[k]
  }

  /** Which failed rows an operator means; an absent filter matches every row. */
  datatype Filter = Filter(topic: Text, group: Text, since: Option<int>, errors: Option<set<Text>>)

  predicate Selects(f: Filter, r: Record) {
    && r.Finished() && r.topic == f.topic && r.group == f.group
    && (f.since.Some? ==> r.finishedAt.value >= f.since.value)
    && (f.errors.Some? ==> r.error in f.errors.value)
  }

  function Restarted(r: Record, now: int): Record {
    r.(startedAt := now, attempt := 0, error := Text(""), finishedAt := None)
  }

  function Restart(t: Table, f: Filter, now: int): Table {
    map k | k in t :: if Selects(f, t[k]) then Restarted(t[k], now) else t[k]
  }

  function Purge(t: Table, f: Filter): Table {
    map k | k in t && !Selects(f, t[k]) :: t[k]
  }

  predicate Due(r: Record, now: int) {
    !r.Finished() && r.startedAt <= now
  }

  /** The distinct messages of failed rows that share a class with `message`. */
  function OfClass(t: Table, f: Filter, cls: Text -> Text, message: Text): set<Text> {
    set k | k in t && Selects(f, t[k]) && cls(t[k].error) == cls(message) :: t[k].error
  }

  // ---------------------------------------------------------------- replies

  /** The id is what the client says the result is for; the repeater does not look at it. */
  datatype Result = Result(id: Text, ok: bool, failure: Failure, message: Text)

  /** What came of delivering one copy: nothing was learned, or the list of results. */
  datatype Reply = Unanswered | Answered(results: seq<Result>)

  datatype Effect = Keep | Drop | Write(record: Record)

  const EMPTY_RESULTS := Text("empty result list")

  function EffectOf(r: Record, reply: Reply, standard: Strategy, now: int): Effect {
    if reply.Unanswered? then Keep
    else if reply.results == [] then Write(NextAttempt(r, standard, now).(error := EMPTY_RESULTS))
    else
      var first := reply.results[0];
      if first.ok then Drop
      else Write(AfterFailure(r, first.failure, standard, now).(error := first.message))
  }

  /** What a delivery does to a record, reply by reply and field by field. */
  lemma EffectChanges(r: Record, reply: Reply, standard: Strategy, now: int)
    ensures reply.Unanswered? ==> EffectOf(r, reply, standard, now) == Keep
    ensures reply.Answered? && reply.results != [] && reply.results[0].ok ==> EffectOf(r, reply, standard, now) == Drop
    ensures reply.Answered? && (reply.results == [] || !reply.results[0].ok) ==>
              && EffectOf(r, reply, standard, now).Write?
              && var w, s := EffectOf(r, reply, standard, now).record, if r.strategy.Some? then r.strategy.value else standard;
                 var f := if reply.results == [] then Failure(false, 0) else reply.results[0].failure;
              && w == r.(attempt := w.attempt, error := w.error, deferred := f.retryLater, startedAt := w.startedAt, finishedAt := w.finishedAt)
              && w.error == (if reply.results == [] then Text("empty result list") else reply.results[0].message)
              && (f.retryLater ==> w.attempt == r.attempt && w.finishedAt == None)
              && (!f.retryLater && s.maxAttempts <= r.attempt ==>
                    w.attempt == r.attempt && w.startedAt == r.startedAt && w.finishedAt == Some(now))
              && (!f.retryLater && r.attempt < s.maxAttempts ==> w.attempt == r.attempt + 1 && w.finishedAt == r.finishedAt)
              && (w.finishedAt == None ==> w.startedAt == now + if f.retryAfter > 0 then f.retryAfter else Delay(s, r.attempt + 1))
  {
    if reply.Answered? && (reply.results == [] || !reply.results[0].ok) {
      var f := if reply.results == [] then ORDINARY else reply.results[0].failure;
      FailureChanges(r, f, standard, now);
    }
  }

  function Persist(t: Table, id: int, e: Effect): Table {
    match e
    case Keep => t
    case Drop => Remove(t, id)
    case Write(r) => UpdateAttempt(t, r)
  }

  /** The row spends an attempt: an ordinary failure or an empty list of results. */
  predicate Spends(reply: Reply) {
    reply.Answered? && (reply.results == [] || (!reply.results[0].ok && !reply.results[0].failure.retryLater))
  }

  // ---------------------------------------------------------------- the system

  /** An operator's request whose error class was already resolved to exact messages. */
  datatype Plan = Plan(filter: Filter, message: Text, delete: bool)

  /** `failures` counts, for each id, the ordinary failures written since it was added or restarted. */
  datatype State = State(table: Table, nextId: int, workers: seq<Table>, plans: set<Plan>, failures: map<int, nat>)

  datatype Action =
    /** A consumer's first failure, stored at clock `now`. */
    | Insert(row: Record, now: int)
    | Select(worker: nat, ids: set<int>, now: int)
    | Process(worker: nat, id: int, reply: Reply, stored: bool, now: int)
    | RestartAll(filter: Filter, now: int)
    | Resolve(filter: Filter, message: Text, delete: bool)
    | Perform(plan: Plan, now: int)

  datatype Config = Config(standard: Strategy, cls: Text -> Text)

  /** A row as Repeater.Add inserts it. */
  predicate Fresh(r: Record) {
    r.attempt == 0 && !r.Finished()
  }

  predicate Enabled(c: Config, s: State, a: Action) {
    match a
    case Insert(row, _) => row.id == s.nextId && Fresh(row)
    case Select(w, ids, now) =>
      w < |s.workers| && s.workers[w] == map[] && forall id | id in ids :: id in s.table && Due(s.table[id], now)
    case Process(w, id, _, _, _) => w < |s.workers| && id in s.workers[w]
    case RestartAll(filter, _) => filter.errors.None?
    case Resolve(filter, _, _) => filter.errors.None?
    case Perform(plan, _) => plan in s.plans
  }

  /** The failure counters after a restart: the restarted rows start again from zero. */
  function Reset(failures: map<int, nat>, t: Table, f: Filter): map<int, nat> {
    map k | k in failures :: if k in t && Selects(f, t[k]) then 0 else failures[k]
  }

  function Processed(c: Config, s: State, w: nat, id: int, reply: Reply, stored: bool, now: int): State
    requires w < |s.workers| && id in s.workers[w]
  {
    var copies := s.workers[w];
    var rest := s.(workers := s.workers[w := Remove(copies, id)]);
    if !stored then rest
    else
      rest.(table := Persist(s.table, id, EffectOf(copies[id], reply, c.standard, now)),
            failures := if Spends(reply) && id in s.failures then s.failures[id := s.failures[id] + 1] else s.failures)
  }

  function Next(c: Config, s: State, a: Action): State
    requires Enabled(c, s, a)
  {
    match a
    case Insert(row, _) =>
      s.(table := s.table[row.id := row], nextId := s.nextId + 1, failures := s.failures[row.id := 0])
    case Select(w, ids, _) =>
      s.(workers := s.workers[w := map id | id in ids :: s.table[id]])
    case Process(w, id, reply, stored, now) => Processed(c, s, w, id, reply, stored, now)
    case RestartAll(filter, now) =>
      s.(table := Restart(s.table, filter, now), failures := Reset(s.failures, s.table, filter))
    case Resolve(filter, message, delete) =>
      var errors := OfClass(s.table, filter, c.cls, message);
      if errors == {} then s
      else s.(plans := s.plans + {Plan(filter.(errors := Some(errors)), message, delete)})
    case Perform(plan, now) =>
      var done := s.(plans := s.plans - {plan});
      if plan.delete then done.(table := Purge(s.table, plan.filter))
      else done.(table := Restart(s.table, plan.filter, now), failures := Reset(s.failures, s.table, plan.filter))
  }

  function Start(workers: nat): State {
    State(map[], 1, seq(workers, _ => map[]), {}, map[])
  }

  predicate IsRun(c: Config, run: seq<State>, actions: seq<Action>, workers: nat) {
    && |run| == |actions| + 1
    && run[0] == Start(workers)
    && forall i {:trigger actions[i]} | 0 <= i < |actions| ::
         Enabled(c, run[i], actions[i]) && run[i + 1] == Next(c, run[i], actions[i])
  }

  // ---------------------------------------------------------------- what every write keeps

  /** The budget is never overspent, and a record is finished only with its budget spent. */
  predicate Bounded(r: Record, standard: Strategy) {
    && 0 <= r.attempt <= r.Budget(standard)
    && (r.Finished() ==> r.attempt == r.Budget(standard))
  }

  predicate RowsSound(t: Table, standard: Strategy) {
    forall id | id in t :: t[id].id == id && Consistent(t[id]) && Bounded(t[id], standard)
  }

  /** A repeater's copies may be stale, but each was an unfinished row under the same id. */
  predicate CopiesSound(copies: Table, t: Table, standard: Strategy) {
    forall id | id in copies ::
      && copies[id].id == id && !copies[id].Finished() && Bounded(copies[id], standard)
      && (id in t ==> t[id].strategy == copies[id].strategy && t[id].message == copies[id].message)
  }

  predicate WorkersSound(workers: seq<Table>, t: Table, standard: Strategy) {
    forall w | 0 <= w < |workers| :: CopiesSound(workers[w], t, standard)
  }

  predicate IdsBelow(t: Table, next: int) {
    forall id | id in t :: id < next
  }

  predicate PlansOfClass(plans: set<Plan>, cls: Text -> Text) {
    forall p | p in plans :: p.filter.errors.Some? && forall e | e in p.filter.errors.value :: cls(e) == cls(p.message)
  }

  predicate Inv(c: Config, s: State) {
    && RowsSound(s.table, c.standard)
    && WorkersSound(s.workers, s.table, c.standard)
    && PlansOfClass(s.plans, c.cls)
    && IdsBelow(s.table, s.nextId)
    && (forall w | 0 <= w < |s.workers| :: IdsBelow(s.workers[w], s.nextId))
  }

  /** No row was added, and what a row was stored with is unchanged. */
  predicate SameOrigin(next: Table, t: Table) {
    next.Keys <= t.Keys && forall id | id in next :: next[id].strategy == t[id].strategy && next[id].message == t[id].message
  }

  /** Statements that neither add rows nor touch ids and strategies keep the copies sound. */
  lemma CopiesStaySound(workers: seq<Table>, t: Table, next: Table, standard: Strategy)
    requires WorkersSound(workers, t, standard)
    requires SameOrigin(next, t)
    ensures WorkersSound(workers, next, standard)
  {
    forall w | 0 <= w < |workers| ensures CopiesSound(workers[w], next, standard) {
      assert CopiesSound(workers[w], t, standard);
    }
  }

  lemma PersistKeepsRows(t: Table, copy: Record, reply: Reply, standard: Strategy, now: int)
    requires RowsSound(t, standard) && !copy.Finished() && Bounded(copy, standard)
    requires copy.id in t ==> t[copy.id].strategy == copy.strategy
    ensures var next := Persist(t, copy.id, EffectOf(copy, reply, standard, now));
      RowsSound(next, standard) && SameOrigin(next, t)
  {
  }

  lemma ProcessInv(c: Config, s: State, w: nat, id: int, reply: Reply, stored: bool, now: int)
    requires Inv(c, s) && w < |s.workers| && id in s.workers[w]
    ensures Inv(c, Processed(c, s, w, id, reply, stored, now))
  {
    assert CopiesSound(s.workers[w], s.table, c.standard);
    var next := Processed(c, s, w, id, reply, stored, now);
    PersistKeepsRows(s.table, s.workers[w][id], reply, c.standard, now);
    CopiesStaySound(s.workers, s.table, next.table, c.standard);
    forall v | 0 <= v < |s.workers|
      ensures CopiesSound(next.workers[v], next.table, c.standard) && IdsBelow(next.workers[v], next.nextId)
    {
      assert CopiesSound(s.workers[v], next.table, c.standard);
    }
  }

  lemma SelectInv(c: Config, s: State, w: nat, ids: set<int>, now: int)
    requires Inv(c, s) && Enabled(c, s, Select(w, ids, now))
    ensures Inv(c, Next(c, s, Select(w, ids, now)))
  {
    var next := Next(c, s, Select(w, ids, now));
    forall v | 0 <= v < |s.workers|
      ensures CopiesSound(next.workers[v], next.table, c.standard) && IdsBelow(next.workers[v], next.nextId)
    {
      assert CopiesSound(s.workers[v], s.table, c.standard);
      assert IdsBelow(s.workers[v], s.nextId);
    }
  }

  lemma InsertInv(c: Config, s: State, row: Record, now: int)
    requires Inv(c, s) && row.id == s.nextId && Fresh(row)
    ensures Inv(c, Next(c, s, Insert(row, now)))
  {
    var next := Next(c, s, Insert(row, now));
    forall v | 0 <= v < |s.workers|
      ensures CopiesSound(next.workers[v], next.table, c.standard) && IdsBelow(next.workers[v], next.nextId)
    {
      assert CopiesSound(s.workers[v], s.table, c.standard);
      assert IdsBelow(s.workers[v], s.nextId);
    }
  }

  lemma InvNext(c: Config, s: State, a: Action)
    requires Inv(c, s) && Enabled(c, s, a)
    ensures Inv(c, Next(c, s, a))
  {
    match a
    case Process(w, id, reply, stored, now) => ProcessInv(c, s, w, id, reply, stored, now);
    case Insert(row, now) => InsertInv(c, s, row, now);
    case Select(w, ids, now) => SelectInv(c, s, w, ids, now);
    case RestartAll(_, _) => CopiesStaySound(s.workers, s.table, Next(c, s, a).table, c.standard);
    case Resolve(_, _, _) =>
    case Perform(_, _) => CopiesStaySound(s.workers, s.table, Next(c, s, a).table, c.standard);
  }

  lemma {:induction false} RunInv(c: Config, run: seq<State>, actions: seq<Action>, workers: nat)
    requires IsRun(c, run, actions, workers)
    ensures Inv(c, run[|actions|])
  {
    if actions != [] {
      var n := |actions| - 1;
      RunInv(c, run[..n + 1], actions[..n], workers);
      assert Enabled(c, run[n], actions[n]) && run[n + 1] == Next(c, run[n], actions[n]);
      InvNext(c, run[n], actions[n]);
    }
  }

  // ---------------------------------------------------------------- counts

  function FailedIds(t: Table): set<int> {
    set id | id in t && t[id].Finished()
  }

  function DeferredIds(t: Table): set<int> {
    set id | id in t && !t[id].Finished() && t[id].deferred
  }

  function FlaggedIds(t: Table): set<int> {
    set id | id in t && t[id].deferred
  }

  function PendingIds(t: Table): set<int> {
    set id | id in t && !t[id].Finished() && !t[id].deferred
  }

  /**
   Whatever stale copies any number of repeaters write, the three counts of the summary split the
   table: what is neither failed nor deferred is pending, the deferred count is exactly the number of
   rows carrying the flag, and no row has overspent its budget or is finished before spending it.
   */
  lemma CountsPartition(c: Config, run: seq<State>, actions: seq<Action>, workers: nat)
    requires IsRun(c, run, actions, workers)
    ensures var t := run[|actions|].table;
      && |t| == |FailedIds(t)| + |DeferredIds(t)| + |PendingIds(t)|
      && FlaggedIds(t) == DeferredIds(t)
      && RowsSound(t, c.standard)
  {
    RunInv(c, run, actions, workers);
    var t := run[|actions|].table;
    assert t.Keys == FailedIds(t) + DeferredIds(t) + PendingIds(t);
    assert |t| == |t.Keys|;
    assert |t.Keys| == |FailedIds(t) + DeferredIds(t)| + |PendingIds(t)|;
    assert forall id | id in t :: Consistent(t[id]);
  }

  // ---------------------------------------------------------------- accounting with one repeater

  predicate Balanced(r: Record, failures: nat, standard: Strategy) {
    var budget := r.Budget(standard);
    if r.Finished() then r.attempt == budget && failures == budget + 1
    else r.attempt == failures && failures <= budget
  }

  predicate RowsBalanced(t: Table, failures: map<int, nat>, standard: Strategy) {
    forall id | id in t :: id in failures && Balanced(t[id], failures[id], standard)
  }

  /** The only repeater's copies are the rows themselves: nobody else writes an unfinished row. */
  predicate CopiesCurrent(copies: Table, t: Table) {
    forall id | id in copies :: id in t && copies[id] == t[id]
  }

  predicate Accounted(c: Config, s: State) {
    && RowsBalanced(s.table, s.failures, c.standard)
    && |s.workers| <= 1
    && (|s.workers| == 1 ==> CopiesCurrent(s.workers[0], s.table))
  }

  lemma SpendKeepsBalance(r: Record, failures: nat, reply: Reply, standard: Strategy, now: int)
    requires !r.Finished() && Balanced(r, failures, standard)
    ensures var e := EffectOf(r, reply, standard, now);
      e.Write? ==> Balanced(e.record, if Spends(reply) then failures + 1 else failures, standard)
  {
  }

  lemma ProcessAccounted(c: Config, s: State, id: int, reply: Reply, stored: bool, now: int)
    requires Inv(c, s) && Accounted(c, s)
    requires |s.workers| == 1 && id in s.workers[0]
    ensures Accounted(c, Processed(c, s, 0, id, reply, stored, now))
  {
    var copy := s.workers[0][id];
    assert CopiesSound(s.workers[0], s.table, c.standard);
    assert copy == s.table[id];
    if stored {
      SpendKeepsBalance(copy, s.failures[id], reply, c.standard, now);
      var next := Processed(c, s, 0, id, reply, stored, now);
      assert EffectOf(copy, reply, c.standard, now).Write? ==> next.table == s.table[id := EffectOf(copy, reply, c.standard, now).record];
    }
  }

  lemma RestartAccounted(c: Config, s: State, f: Filter, now: int)
    requires Inv(c, s) && Accounted(c, s)
    ensures RowsBalanced(Restart(s.table, f, now), Reset(s.failures, s.table, f), c.standard)
    ensures |s.workers| == 1 ==> CopiesCurrent(s.workers[0], Restart(s.table, f, now))
  {
    assert |s.workers| == 1 ==> CopiesSound(s.workers[0], s.table, c.standard);
  }

  lemma PurgeAccounted(c: Config, s: State, f: Filter)
    requires Inv(c, s) && Accounted(c, s)
    ensures RowsBalanced(Purge(s.table, f), s.failures, c.standard)
    ensures |s.workers| == 1 ==> CopiesCurrent(s.workers[0], Purge(s.table, f))
  {
    assert |s.workers| == 1 ==> CopiesSound(s.workers[0], s.table, c.standard);
  }

  lemma AccountedNext(c: Config, s: State, a: Action)
    requires Inv(c, s) && Accounted(c, s) && Enabled(c, s, a)
    ensures Accounted(c, Next(c, s, a))
  {
    match a
    case Process(_, id, reply, stored, now) => ProcessAccounted(c, s, id, reply, stored, now);
    case RestartAll(filter, now) => RestartAccounted(c, s, filter, now);
    case Perform(plan, now) =>
      if plan.delete {
        PurgeAccounted(c, s, plan.filter);
      } else {
        RestartAccounted(c, s, plan.filter, now);
      }
    case Insert(row, _) =>
    case Select(_, _, _) =>
    case Resolve(_, _, _) =>
  }

  /**
   With at most one repeater, in every reachable state an unfinished row's attempt is the number of
   ordinary failures written since it was added or restarted, and it has not passed the budget; a
   finished row was finished by exactly one failure more than its budget.
   */
  lemma {:induction false} AttemptsCountFailures(c: Config, run: seq<State>, actions: seq<Action>, workers: nat)
    requires IsRun(c, run, actions, workers) && workers <= 1
    ensures Accounted(c, run[|actions|])
  {
    if actions != [] {
      var n := |actions| - 1;
      AttemptsCountFailures(c, run[..n + 1], actions[..n], workers);
      RunInv(c, run[..n + 1], actions[..n], workers);
      assert Enabled(c, run[n], actions[n]) && run[n + 1] == Next(c, run[n], actions[n]);
      AccountedNext(c, run[n], actions[n]);
    }
  }

  const NO_TEXT := Text("")
  const NEW_ROW := Record(1, NO_TEXT, NO_TEXT, NO_TEXT, NO_TEXT, Payload(None, [], map[]), None, 0, NO_TEXT, false, 0, None)
  const ORDINARY_FAILURE := Answered([Result(NO_TEXT, false, ORDINARY, NO_TEXT)])

  /** Two repeaters read the same new row and write the same first failure of it. */
  const SAME_FAILURE_TWICE := [
    Insert(NEW_ROW, 0), Select(0, {1}, 0), Select(1, {1}, 0),
    Process(0, 1, ORDINARY_FAILURE, true, 0), Process(1, 1, ORDINARY_FAILURE, true, 0)]

  lemma BothSelected(c: Config, workers: nat) returns (s: State, s1: State, s2: State)
    requires workers >= 2
    ensures Enabled(c, Start(workers), Insert(NEW_ROW, 0)) && s1 == Next(c, Start(workers), Insert(NEW_ROW, 0))
    ensures Enabled(c, s1, Select(0, {1}, 0)) && s2 == Next(c, s1, Select(0, {1}, 0))
    ensures Enabled(c, s2, Select(1, {1}, 0)) && s == Next(c, s2, Select(1, {1}, 0))
    ensures s.table == map[1 := NEW_ROW] && s.failures == map[1 := 0] && |s.workers| == workers
    ensures s.workers[0] == map[1 := NEW_ROW] && s.workers[1] == map[1 := NEW_ROW]
  {
    var s0 := Start(workers);
    s1 := Next(c, s0, Insert(NEW_ROW, 0));
    s2 := Next(c, s1, Select(0, {1}, 0));
    s := Next(c, s2, Select(1, {1}, 0));
  }

  lemma BothFail(c: Config, s: State)
    requires s.table == map[1 := NEW_ROW] && s.failures == map[1 := 0] && |s.workers| >= 2
    requires s.workers[0] == map[1 := NEW_ROW] && s.workers[1] == map[1 := NEW_ROW]
    ensures var first, second := Process(0, 1, ORDINARY_FAILURE, true, 0), Process(1, 1, ORDINARY_FAILURE, true, 0);
      && Enabled(c, s, first) && Enabled(c, Next(c, s, first), second)
      && var end := Next(c, Next(c, s, first), second);
      && 1 in end.table && end.failures == map[1 := 2]
      && end.table[1] == NextAttempt(NEW_ROW, c.standard, 0).(error := NO_TEXT)
  {
  }

  /** With two or more repeaters the equation fails: both write the same stale copy, and one failure is lost. */
  lemma TwoRepeatersLoseAFailure(c: Config, workers: nat) returns (run: seq<State>)
    requires workers >= 2
    ensures IsRun(c, run, SAME_FAILURE_TWICE, workers)
    ensures !RowsBalanced(run[5].table, run[5].failures, c.standard)
  {
    var s3, s1, s2 := BothSelected(c, workers);
    BothFail(c, s3);
    var s4 := Next(c, s3, SAME_FAILURE_TWICE[3]);
    var s5 := Next(c, s4, SAME_FAILURE_TWICE[4]);
    run := [Start(workers), s1, s2, s3, s4, s5];
    assert !Balanced(s5.table[1], s5.failures[1], c.standard);
  }

  ghost predicate AlwaysBalanced(c: Config, workers: nat) {
    forall run: seq<State>, actions: seq<Action> | IsRun(c, run, actions, workers) :: RowsBalanced(run[|actions|].table, run[|actions|].failures, c.standard)
  }

  /** For every configuration, attempts count failures in every run if and only if there is at most one repeater. */
  lemma AttemptsCountFailuresIff(c: Config, workers: nat)
    ensures AlwaysBalanced(c, workers) <==> workers <= 1
  {
    if workers <= 1 {
      forall run: seq<State>, actions: seq<Action> | IsRun(c, run, actions, workers)
        ensures RowsBalanced(run[|actions|].table, run[|actions|].failures, c.standard)
      {
        AttemptsCountFailures(c, run, actions, workers);
      }
    } else {
      var run := TwoRepeatersLoseAFailure(c, workers);
      assert IsRun(c, run, SAME_FAILURE_TWICE, workers) && |SAME_FAILURE_TWICE| == 5;
    }
  }

  // ---------------------------------------------------------------- conservation

  /** The step deletes row `id` for one of the two reasons a row may leave the table. */
  predicate Discharges(c: Config, s: State, a: Action, id: int) {
    match a
    case Process(_, k, reply, stored, _) =>
      k == id && stored && reply.Answered? && reply.results != [] && reply.results[0].ok
    case Perform(plan, _) =>
      && plan.delete && id in s.table && s.table[id].Finished()
      && s.table[id].topic == plan.filter.topic && s.table[id].group == plan.filter.group
      && c.cls(s.table[id].error) == c.cls(plan.message)
    case _ => false
  }

  lemma LeavesOnlyDischarged(c: Config, s: State, a: Action, id: int)
    requires Inv(c, s) && Enabled(c, s, a)
    requires id in s.table && id !in Next(c, s, a).table
    ensures Discharges(c, s, a, id)
  {
  }

  /** The last step before which the row was still there. */
  function LastSeen(run: seq<State>, id: int): nat
    requires run != []
  {
    if |run| == 1 then 0
    else if id in run[|run| - 2].table then |run| - 2
    else LastSeen(run[..|run| - 1], id)
  }

  /**
   Over any run with any number of repeaters, a row that was in the table and is gone was delivered
   and answered ok, or was a finished row deleted by an operator who named its topic, group and class.
   */
  lemma {:induction false} RowsAreConserved(c: Config, run: seq<State>, actions: seq<Action>, workers: nat, i: nat, id: int)
    requires IsRun(c, run, actions, workers)
    requires i < |run| && id in run[i].table && id !in run[|actions|].table
    ensures var k := LastSeen(run, id);
      i <= k < |actions| && id in run[k].table && Discharges(c, run[k], actions[k], id)
    decreases |run|
  {
    var n := |actions| - 1;
    assert Enabled(c, run[n], actions[n]) && run[n + 1] == Next(c, run[n], actions[n]);
    if id in run[n].table {
      RunInv(c, run[..n + 1], actions[..n], workers);
      LeavesOnlyDischarged(c, run[n], actions[n], id);
    } else {
      RowsAreConserved(c, run[..n + 1], actions[..n], workers, i, id);
    }
  }

  // ---------------------------------------------------------------- the fate of one row

  /** Both rows are for the same message of the same consumer, with the same content. */
  predicate SameMessage(a: Record, b: Record) {
    a.topic == b.topic && a.group == b.group && a.consumer == b.consumer && a.message == b.message && a.payload == b.payload
  }

  /** Whatever is written to a row later, it stays the row of its message; its id is not used again. */
  predicate StaysFor(s: State, id: int, row: Record) {
    id < s.nextId && (id in s.table ==> SameMessage(s.table[id], row))
  }

  lemma StaysForNext(c: Config, s: State, a: Action, id: int, row: Record)
    requires Inv(c, s) && Enabled(c, s, a) && StaysFor(s, id, row)
    ensures StaysFor(Next(c, s, a), id, row)
  {
  }

  lemma {:induction false} RowStays(c: Config, run: seq<State>, actions: seq<Action>, workers: nat, k: nat, j: nat)
    requires IsRun(c, run, actions, workers) && k < j < |run| && actions[k].Insert?
    ensures StaysFor(run[j], actions[k].row.id, actions[k].row)
  {
    RunInv(c, run[..j], actions[..j - 1], workers);
    assert Enabled(c, run[j - 1], actions[j - 1]) && run[j] == Next(c, run[j - 1], actions[j - 1]);
    if k < j - 1 {
      RowStays(c, run, actions, workers, k, j - 1);
      StaysForNext(c, run[j - 1], actions[j - 1], actions[k].row.id, actions[k].row);
    }
  }

  /** The row added by step k is still in the table for its message, or was discharged while it was. */
  predicate IsKeptOrDischarged(c: Config, run: seq<State>, actions: seq<Action>, k: nat)
    requires |run| == |actions| + 1 && k < |actions| && actions[k].Insert?
  {
    var row, end := actions[k].row, run[|actions|].table;
    if row.id in end then SameMessage(end[row.id], row)
    else
      var j := LastSeen(run, row.id);
      && k < j < |actions| && row.id in run[j].table && SameMessage(run[j].table[row.id], row)
      && Discharges(c, run[j], actions[j], row.id)
  }

  /** Every row that is ever added is, at the end of any run, still there for its message or was discharged. */
  lemma AddedRowIsAccounted(c: Config, run: seq<State>, actions: seq<Action>, workers: nat, k: nat)
    requires IsRun(c, run, actions, workers) && k < |actions| && actions[k].Insert?
    ensures IsKeptOrDischarged(c, run, actions, k)
  {
    var id := actions[k].row.id;
    RowStays(c, run, actions, workers, k, |actions|);
    if id !in run[|actions|].table {
      assert Enabled(c, run[k], actions[k]) && run[k + 1] == Next(c, run[k], actions[k]);
      RowsAreConserved(c, run, actions, workers, k + 1, id);
      RowStays(c, run, actions, workers, k, LastSeen(run, id));
    }
  }

  // ---------------------------------------------------------------- waiting

  predicate NobodyHolds(s: State, id: int) {
    forall w | 0 <= w < |s.workers| :: id !in s.workers[w]
  }

  /** No repeater selects between steps i and j at clock `start` or later. */
  predicate SelectsBefore(actions: seq<Action>, i: nat, j: nat, start: int) {
    forall k | i <= k < j && k < |actions| && actions[k].Select? :: actions[k].now < start
  }

  lemma WaitStep(c: Config, s: State, a: Action, id: int)
    requires Inv(c, s) && Enabled(c, s, a) && id in s.table && NobodyHolds(s, id)
    requires s.table[id].finishedAt == None && (a.Select? ==> a.now < s.table[id].startedAt)
    ensures var next := Next(c, s, a); id in next.table && next.table[id] == s.table[id] && NobodyHolds(next, id)
  {
    if a.Process? {
      assert CopiesSound(s.workers[a.worker], s.table, c.standard);
    }
  }

  /**
   An unfinished row that no repeater holds stays as it is, undelivered, as long as every iteration
   selects at a clock before its start; whatever else happens to the table.
   */
  lemma {:induction false} RowWaits(c: Config, run: seq<State>, actions: seq<Action>, workers: nat, i: nat, j: nat, id: int)
    requires IsRun(c, run, actions, workers) && i <= j < |run| && id in run[i].table && NobodyHolds(run[i], id)
    requires run[i].table[id].finishedAt == None && SelectsBefore(actions, i, j, run[i].table[id].startedAt)
    ensures id in run[j].table && run[j].table[id] == run[i].table[id] && NobodyHolds(run[j], id)
  {
    if i < j {
      RowWaits(c, run, actions, workers, i, j - 1, id);
      RunInv(c, run[..j], actions[..j - 1], workers);
      assert Enabled(c, run[j - 1], actions[j - 1]) && run[j] == Next(c, run[j - 1], actions[j - 1]);
      WaitStep(c, run[j - 1], actions[j - 1], id);
    }
  }

  /** A row that was just added is not delivered before its start. */
  lemma AddedRowWaits(c: Config, run: seq<State>, actions: seq<Action>, workers: nat, i: nat, j: nat)
    requires IsRun(c, run, actions, workers) && i < j < |run| && actions[i].Insert?
    requires SelectsBefore(actions, i + 1, j, actions[i].row.startedAt)
    ensures var row := actions[i].row; row.id in run[j].table && run[j].table[row.id] == row && NobodyHolds(run[j], row.id)
  {
    RunInv(c, run[..i + 1], actions[..i], workers);
    assert Enabled(c, run[i], actions[i]) && run[i + 1] == Next(c, run[i], actions[i]);
    RowWaits(c, run, actions, workers, i + 1, j, actions[i].row.id);
  }

  /** The clock a failed copy waits for when it has an attempt left or was postponed. */
  function WaitsUntil(r: Record, f: Failure, standard: Strategy, now: int): int {
    var s := if r.strategy.Some? then r.strategy.value else standard;
    now + if f.retryAfter > 0 then f.retryAfter else Delay(s, r.attempt + 1)
  }

  /** The delivery failed and leaves the record with another delivery to come. */
  predicate FailsWithMore(r: Record, reply: Reply, standard: Strategy) {
    && reply.Answered? && reply.results != [] && !reply.results[0].ok
    && var s := if r.strategy.Some? then r.strategy.value else standard;
    reply.results[0].failure.retryLater || r.attempt < s.maxAttempts
  }

  lemma FailedStep(c: Config, s: State, w: nat, id: int, reply: Reply, now: int)
    requires Inv(c, s) && w < |s.workers| && id in s.workers[w] && id in s.table
    requires FailsWithMore(s.workers[w][id], reply, c.standard)
    ensures var row := Processed(c, s, w, id, reply, true, now).table;
      && id in row && row[id].finishedAt == None
      && row[id].startedAt == WaitsUntil(s.workers[w][id], reply.results[0].failure, c.standard, now)
    ensures |s.workers| <= 1 ==> NobodyHolds(Processed(c, s, w, id, reply, true, now), id)
  {
    assert CopiesSound(s.workers[w], s.table, c.standard);
    EffectChanges(s.workers[w][id], reply, c.standard, now);
  }

  lemma {:induction false} WorkersStay(c: Config, run: seq<State>, actions: seq<Action>, workers: nat, k: nat)
    requires IsRun(c, run, actions, workers) && k < |run|
    ensures |run[k].workers| == workers
  {
    if k > 0 {
      WorkersStay(c, run, actions, workers, k - 1);
      assert Enabled(c, run[k - 1], actions[k - 1]) && run[k] == Next(c, run[k - 1], actions[k - 1]);
    }
  }

  /**
   After a failure written at clock n, with one repeater or none that holds another copy, iterations
   before n plus the consumer's own delay, or else plus the delay of the next attempt, leave the row as
   it is.
   */
  lemma FailedRowWaits(c: Config, run: seq<State>, actions: seq<Action>, workers: nat, i: nat, j: nat, w: nat, id: int, reply: Reply, n: int)
    requires IsRun(c, run, actions, workers) && i < j < |run| && actions[i] == Process(w, id, reply, true, n)
    requires w < |run[i].workers| && id in run[i].workers[w] && id in run[i].table
    requires FailsWithMore(run[i].workers[w][id], reply, c.standard) && (workers <= 1 || NobodyHolds(run[i + 1], id))
    requires SelectsBefore(actions, i + 1, j, WaitsUntil(run[i].workers[w][id], reply.results[0].failure, c.standard, n))
    ensures id in run[j].table && run[j].table[id] == run[i + 1].table[id] && NobodyHolds(run[j], id)
  {
    RunInv(c, run[..i + 1], actions[..i], workers);
    WorkersStay(c, run, actions, workers, i);
    assert Enabled(c, run[i], actions[i]) && run[i + 1] == Next(c, run[i], actions[i]);
    FailedStep(c, run[i], w, id, reply, n);
    RowWaits(c, run, actions, workers, i + 1, j, id);
  }

  // ---------------------------------------------------------------- answers under another id

  const FOREIGN_ANSWER := Answered([Result(Text("foreign"), true, ORDINARY, NO_TEXT)])
  const FOREIGN_DELIVERY := [Insert(NEW_ROW, 0), Select(0, {1}, 0), Process(0, 1, FOREIGN_ANSWER, true, 0)]

  lemma ForeignResultDeletes(c: Config, s: State)
    requires |s.workers| >= 1 && s.table == map[1 := NEW_ROW] && s.workers[0] == map[1 := NEW_ROW]
    ensures var a := Process(0, 1, FOREIGN_ANSWER, true, 0); Enabled(c, s, a) && Next(c, s, a).table == map[]
  {
  }

  /** The repeater does not look at the id of a result: a row leaves by an ok result that names another message. */
  lemma ForeignAnswerLosesRow(c: Config, workers: nat) returns (run: seq<State>)
    requires workers >= 1
    ensures IsRun(c, run, FOREIGN_DELIVERY, workers)
    ensures run[1].table == map[1 := NEW_ROW] && run[3].table == map[] && FOREIGN_ANSWER.results[0].id != NEW_ROW.message
  {
    var s0 := Start(workers);
    var s1 := Next(c, s0, Insert(NEW_ROW, 0));
    var s2 := Next(c, s1, Select(0, {1}, 0));
    assert s2.workers[0] == map[1 := NEW_ROW];
    ForeignResultDeletes(c, s2);
    run := [s0, s1, s2, Next(c, s2, FOREIGN_DELIVERY[2])];
    assert FOREIGN_ANSWER.results[0].id.value[0] == 'f';
  }
}

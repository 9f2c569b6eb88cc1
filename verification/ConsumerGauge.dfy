/**
 The gauge of active consumers, kept by increments and decrements beside a map of every consumer's
 state, and the attempts of one consumer that decide when it counts as connected.
 */
module ConsumerGauge {
  import opened RetryRecords

  datatype ConsumerKey = ConsumerKey(topic: Text, group: Text, id: Text)

  datatype Label = Label(topic: Text, group: Text, state: Text)

  function LabelOf(k: ConsumerKey, state: Text): Label {
    Label(k.topic, k.group, state)
  }

  /** The recount: the registered consumers that a label stands for. */
  function Holders(states: map<ConsumerKey, Text>, l: Label): set<ConsumerKey> {
    set k | k in states && LabelOf(k, states[k]) == l
  }

  function Value(gauge: map<Label, int>, l: Label): int {
    if l in gauge then gauge[l] else 0
  }

  /** The gauge agrees with the recount, for labels it has never seen as well. */
  ghost predicate Agrees(gauge: map<Label, int>, states: map<ConsumerKey, Text>) {
    forall l :: Value(gauge, l) == |Holders(states, l)|
  }

  lemma HoldersAfterRemoval(states: map<ConsumerKey, Text>, k: ConsumerKey, l: Label)
    requires k in states
    ensures |Holders(states - {k}, l)| == |Holders(states, l)| - if LabelOf(k, states[k]) == l then 1 else 0
  {
    if LabelOf(k, states[k]) == l {
      assert Holders(states, l) == Holders(states - {k}, l) + {k};
    } else {
      assert Holders(states, l) == Holders(states - {k}, l);
    }
  }

  lemma HoldersAfterAddition(states: map<ConsumerKey, Text>, k: ConsumerKey, state: Text, l: Label)
    requires k !in states
    ensures |Holders(states[k := state], l)| == |Holders(states, l)| + if LabelOf(k, state) == l then 1 else 0
  {
    if LabelOf(k, state) == l {
      assert Holders(states[k := state], l) == Holders(states, l) + {k};
    } else {
      assert Holders(states[k := state], l) == Holders(states, l);
    }
  }

  lemma RemovalAgrees(gauge: map<Label, int>, states: map<ConsumerKey, Text>, k: ConsumerKey)
    requires Agrees(gauge, states) && k in states
    ensures var l := LabelOf(k, states[k]); Agrees(gauge[l := Value(gauge, l) - 1], states - {k})
  {
    var own := LabelOf(k, states[k]);
    var next, rest := gauge[own := Value(gauge, own) - 1], states - {k};
    forall l ensures Value(next, l) == |Holders(rest, l)| {
      HoldersAfterRemoval(states, k, l);
    }
  }

  lemma AdditionAgrees(gauge: map<Label, int>, states: map<ConsumerKey, Text>, k: ConsumerKey, state: Text)
    requires Agrees(gauge, states) && k !in states
    ensures var l := LabelOf(k, state); Agrees(gauge[l := Value(gauge, l) + 1], states[k := state])
  {
    var own := LabelOf(k, state);
    var next, more := gauge[own := Value(gauge, own) + 1], states[k := state];
    forall l ensures Value(next, l) == |Holders(more, l)| {
      HoldersAfterAddition(states, k, state, l);
    }
  }

  class Metrics {
    var states: map<ConsumerKey, Text>
    var gauge: map<Label, int>

    ghost predicate Valid()
      reads this
    {
      Agrees(gauge, states)
    }

    constructor ()
      ensures Valid() && states == map[]
    {
      states, gauge := map[], map[];
      assert forall l :: Holders(map[], l) == {};
    }

    method Dec(l: Label)
      modifies this`gauge
      ensures gauge == old(gauge)[l := Value(old(gauge), l) - 1]
    {
      gauge := gauge[l := Value(gauge, l) - 1];
    }

    method Inc(l: Label)
      modifies this`gauge
      ensures gauge == old(gauge)[l := Value(old(gauge), l) + 1]
    {
      gauge := gauge[l := Value(gauge, l) + 1];
    }

    /** Registers a consumer, or moves one registered under the same key. */
    method AddConsumer(k: ConsumerKey, state: Text)
      requires Valid()
      modifies this
      ensures Valid() && states == old(states)[k := state]
    {
      ghost var rest := states - {k};
      if k in states {
        RemovalAgrees(gauge, states, k);
        Dec(LabelOf(k, states[k]));
      } else {
        assert rest == states;
      }
      AdditionAgrees(gauge, rest, k, state);
      assert rest[k := state] == states[k := state];
      states := states[k := state];
      Inc(LabelOf(k, state));
    }

    /** Forgets a consumer; one that is not registered is not counted twice. */
    method RemoveConsumer(k: ConsumerKey)
      requires Valid()
      modifies this
      ensures Valid() && states == old(states) - {k}
    {
      if k !in states {
        assert states - {k} == states;
        return;
      }
      RemovalAgrees(gauge, states, k);
      var state := states[k];
      states := states - {k};
      Dec(LabelOf(k, state));
    }

    /** Moves a registered consumer; a change that arrives after its removal is ignored. */
    method ChangeConsumerState(k: ConsumerKey, current: Text)
      requires Valid()
      modifies this
      ensures Valid() && states == if k in old(states) then old(states)[k := current] else old(states)
      ensures k !in old(states) || old(states)[k] == current ==> gauge == old(gauge)
    {
      if k !in states || states[k] == current {
        return;
      }
      ghost var rest := states - {k};
      RemovalAgrees(gauge, states, k);
      Dec(LabelOf(k, states[k]));
      AdditionAgrees(gauge, rest, k, current);
      Inc(LabelOf(k, current));
      assert rest[k := current] == states[k := current];
      states := states[k := current];
    }
  }

  // ---------------------------------------------------------------- the attempts of a consumer

  const CONNECTED := Text("connected")
  const RECONNECTING := Text("reconnecting")

  function Changed(states: map<ConsumerKey, Text>, k: ConsumerKey, state: Text): map<ConsumerKey, Text> {
    if k in states then states[k := state] else states
  }

  /** One attempt to read: its flags are shared by the reading loop and a timer that may come late. */
  class ReadAttempt {
    const metrics: Metrics
    const key: ConsumerKey
    var active: bool
    var connected: bool
    var shown: Text

    constructor (metrics: Metrics, key: ConsumerKey, shown: Text)
      ensures this.metrics == metrics && this.key == key && active && !connected && this.shown == shown
    {
      this.metrics, this.key, this.shown := metrics, key, shown;
      active, connected := true, false;
    }

    method SetState(state: Text)
      requires metrics.Valid()
      modifies this`shown, metrics
      ensures metrics.Valid() && shown == state
      ensures metrics.states == Changed(old(metrics.states), key, state)
    {
      shown := state;
      metrics.ChangeConsumerState(key, state);
    }

    /** Called by the first batch and by the timer, in any order and any number of times. */
    method MarkConnected()
      requires metrics.Valid()
      modifies this, metrics
      ensures metrics.Valid() && active == old(active) && connected == (old(connected) || active)
      ensures if old(active && !connected)
        then shown == CONNECTED && metrics.states == Changed(old(metrics.states), key, CONNECTED)
        else unchanged(this) && unchanged(metrics)
    {
      if active && !connected {
        connected := true;
        SetState(CONNECTED);
      }
    }

    /** The read ended: from here on no mark has an effect. */
    method Finish()
      requires metrics.Valid()
      modifies this, metrics
      ensures metrics.Valid() && !active && connected == old(connected) && shown == RECONNECTING
      ensures metrics.states == Changed(old(metrics.states), key, RECONNECTING)
    {
      active := false;
      SetState(RECONNECTING);
    }
  }

  datatype ConsumerState = Connecting | Connected | Reconnecting

  datatype Attempt = Attempt(active: bool, connected: bool)

  /** Every attempt so far, each with flags of its own that its timer may still reach, and the state shown. */
  datatype System = System(attempts: seq<Attempt>, shown: ConsumerState)

  datatype Action =
    | Begin
    | Mark(attempt: nat)
    | End

  predicate Reading(s: System) {
    s.attempts != [] && s.attempts[|s.attempts| - 1].active
  }

  /** A timer may fire or run at any moment after its attempt began, also after the attempt ended. */
  predicate Enabled(s: System, a: Action) {
    match a
    case Begin => !Reading(s)
    case Mark(i) => i < |s.attempts|
    case End => Reading(s)
  }

  function Next(s: System, a: Action): System
    requires Enabled(s, a)
  {
    match a
    case Begin => s.(attempts := s.attempts + [Attempt(true, false)])
    case Mark(i) =>
      if s.attempts[i].active && !s.attempts[i].connected then
        System(s.attempts[i := Attempt(true, true)], Connected)
      else s
    case End =>
      var i := |s.attempts| - 1;
      System(s.attempts[i := s.attempts[i].(active := false)], Reconnecting)
  }

  predicate IsRun(run: seq<System>, actions: seq<Action>) {
    && |run| == |actions| + 1
    && run[0] == System([], Connecting)
    && forall i {:trigger actions[i]} | 0 <= i < |actions| ::
         Enabled(run[i], actions[i]) && run[i + 1] == Next(run[i], actions[i])
  }

  /** Connected is shown exactly while the newest attempt is reading and has proved itself. */
  predicate ShowsTruth(s: System) {
    s.shown == Connected <==> Reading(s) && s.attempts[|s.attempts| - 1].connected
  }

  predicate OlderEnded(s: System) {
    forall i | 0 <= i < |s.attempts| - 1 :: !s.attempts[i].active
  }

  lemma {:induction false} ConnectedOnlyWhileReading(run: seq<System>, actions: seq<Action>)
    requires IsRun(run, actions)
    ensures ShowsTruth(run[|actions|]) && OlderEnded(run[|actions|])
  {
    if actions != [] {
      var n := |actions| - 1;
      ConnectedOnlyWhileReading(run[..n + 1], actions[..n]);
      assert Enabled(run[n], actions[n]) && run[n + 1] == Next(run[n], actions[n]);
    }
  }

  /** A timer that fires late, however late, changes nothing. */
  lemma LateTimerIsHarmless(run: seq<System>, actions: seq<Action>, i: nat)
    requires IsRun(run, actions) && i < |run[|actions|].attempts|
    requires !Reading(run[|actions|]) || i < |run[|actions|].attempts| - 1
    ensures Next(run[|actions|], Mark(i)) == run[|actions|]
  {
    ConnectedOnlyWhileReading(run, actions);
  }
}

/**
 Deduplication of deliveries over the client's inbox table. A delivery first looks the key up and is
 skipped if it is marked. In transactional mode the handler then claims the key as the first step of
 its own transaction and commits last; in only-once mode the mark is written after the handler.

 Deliveries of any keys interleave step by step and may crash anywhere. A claim whose key is held by
 an open transaction waits, which here means that the step is not enabled until that transaction ends.
 */
module Inbox {
  import opened Wrappers

  // ----- Keys -----

  function Key(group: string, topic: string, idempotencyKey: string): string {
    group + "|" + topic + "|" + idempotencyKey
  }

  function KeySpace(group: string, topic: string): string {
    group + "|" + topic + "|"
  }

  lemma KeysOfOneConsumerAreInjective(group: string, topic: string, k: string, k': string)
    ensures Key(group, topic, k) == Key(group, topic, k') <==> k == k'
  {
    var p := KeySpace(group, topic);
    assert Key(group, topic, k) == p + k && Key(group, topic, k') == p + k';
    assert (p + k)[|p|..] == k && (p + k')[|p|..] == k';
  }

  /**
   Two consumers can produce the same key if and only if one of their key spaces is a prefix of the other.
   */
  lemma KeySpacesCollideIffPrefix(group: string, topic: string, group': string, topic': string)
    ensures (exists k, k' :: Key(group, topic, k) == Key(group', topic', k'))
            <==> (KeySpace(group, topic) <= KeySpace(group', topic') || KeySpace(group', topic') <= KeySpace(group, topic))
  {
    var p, q := KeySpace(group, topic), KeySpace(group', topic');
    if k, k' :| Key(group, topic, k) == Key(group', topic', k') {
      assert p + k == Key(group, topic, k) && q + k' == Key(group', topic', k');
      var s := p + k;
      assert s[..|p|] == p && s[..|q|] == q;
      if |p| <= |q| {
        assert q[..|p|] == p;
      } else {
        assert p[..|q|] == q;
      }
    }
    if p <= q {
      assert q == p + q[|p|..];
      assert Key(group, topic, q[|p|..]) == q == Key(group', topic', "");
    }
    if q <= p {
      assert p == q + p[|q|..];
      assert Key(group, topic, "") == p == Key(group', topic', p[|q|..]);
    }
  }

  lemma SeparatorsAt(group: string, topic: string)
    requires '|' !in group && '|' !in topic
    ensures var p := KeySpace(group, topic);
      |p| == |group| + |topic| + 2 && forall i :: 0 <= i < |p| ==> (p[i] == '|' <==> i == |group| || i == |p| - 1)
  {
  }

  lemma PlainSpacesAreApart(group: string, topic: string, group': string, topic': string)
    requires '|' !in group && '|' !in topic && '|' !in group' && '|' !in topic'
    requires KeySpace(group, topic) <= KeySpace(group', topic')
    ensures group == group' && topic == topic'
  {
    var p, q := KeySpace(group, topic), KeySpace(group', topic');
    SeparatorsAt(group, topic);
    SeparatorsAt(group', topic');
    assert q[..|p|] == p;
    assert q[|group|] == p[|group|] == '|';
    assert |group| == |group'|;
    assert group == p[..|group|] == q[..|group|] == group';
    assert q[|p| - 1] == p[|p| - 1] == '|';
    assert |p| == |q|;
    assert topic == p[|group| + 1..|p| - 1] == q[|group| + 1..|q| - 1] == topic';
  }

  /** Names without the separator give one key only for the same group, topic and idempotency key. */
  lemma PlainKeysAreInjective(group: string, topic: string, k: string, group': string, topic': string, k': string)
    requires '|' !in group && '|' !in topic && '|' !in group' && '|' !in topic'
    ensures Key(group, topic, k) == Key(group', topic', k') <==> group == group' && topic == topic' && k == k'
  {
    if Key(group, topic, k) == Key(group', topic', k') {
      KeySpacesCollideIffPrefix(group, topic, group', topic');
      if KeySpace(group, topic) <= KeySpace(group', topic') {
        PlainSpacesAreApart(group, topic, group', topic');
      } else {
        PlainSpacesAreApart(group', topic', group, topic);
      }
      KeysOfOneConsumerAreInjective(group, topic, k, k');
    }
  }

  // ----- The claim on the table -----

  /** A key as stored in the table. */
  datatype MarkKey = MarkKey(value: string)

  datatype ClaimOutcome = Claimed | AlreadyProcessed | ClaimError

  /** The inbox table: committed marks, and the uncommitted mark of each open transaction that claimed. */
  datatype Table = Table(marks: set<MarkKey>, open: map<nat, MarkKey>) {

    /** Whether another open transaction holds the key, so that a claim of it waits. */
    predicate Held(key: MarkKey, tx: nat) {
      exists t :: t in open && t != tx && open[t] == key
    }

    function Claim(key: MarkKey, tx: nat): (r: (Table, ClaimOutcome))
      requires tx !in open
    {
      if key in marks then (this, AlreadyProcessed)
      else (this.(open := open[tx := key]), Claimed)
    }

    function Commit(tx: nat): Table {
      if tx in open then Table(marks + {open[tx]}, open - {tx}) else this
    }

    function Rollback(tx: nat): Table {
      this.(open := open - {tx})
    }
  }

  // ----- One delivery from start to end -----

  datatype Mode = OnlyOnce | Transactional

  /** Which of a delivery's operations fail; a failed commit of the handler's transaction is taken to be undone. */
  datatype Faults = Faults(check: bool, claim: bool, handler: bool, commit: bool, mark: bool)

  /** The inbox table with the business effects committed beside it, as one delivery uses them. */
  class InboxClient {
    var table: Table
    var effects: seq<MarkKey>

    constructor ()
      ensures table == Table({}, map[]) && effects == []
    {
      table, effects := Table({}, map[]), [];
    }

    /** The claim inside transaction tx: true only when this call inserted the row. */
    method Claim(tx: nat, key: MarkKey, failing: bool) returns (claimed: bool)
      requires tx !in table.open && !table.Held(key, tx)
      modifies this`table
      ensures claimed <==> !failing && key !in old(table).marks
      ensures table.marks == old(table).marks && table.open == if claimed then old(table).open[tx := key] else old(table).open
    {
      claimed := false;
      if !failing {
        var (after, outcome) := table.Claim(key, tx);
        table, claimed := after, outcome.Claimed?;
      }
    }

    /**
     Runs the handler's function behind the claim; without a claim it always runs. It is skipped
     without an error exactly when the claim is lost.
     */
    method Guard(tx: nat, claim: Option<MarkKey>, faults: Faults) returns (ran: bool, failed: bool)
      requires tx !in table.open
      requires claim.Some? ==> !table.Held(claim.value, tx)
      modifies this`table
      ensures ran <==> claim.None? || (!faults.claim && claim.value !in old(table).marks)
      ensures failed <==> if ran then faults.handler else faults.claim
      ensures table.marks == old(table).marks
      ensures table.open == if ran && claim.Some? then old(table).open[tx := claim.value] else old(table).open
    {
      if claim.Some? {
        var claimed := Claim(tx, claim.value, faults.claim);
        if faults.claim || !claimed {
          return false, faults.claim;
        }
      }
      return true, faults.handler;
    }

    /**
     One delivery of a message in transaction tx, exactly. A marked message is a success without an
     effect; an unmarked one is handled, and marked unless only its separate mark fails. A failed delivery
     leaves no trace.
     */
    method ProcessWithInbox(mode: Mode, key: MarkKey, tx: nat, faults: Faults) returns (ok: bool)
      requires tx !in table.open && !table.Held(key, tx)
      modifies this
      ensures ok <==>
              && !faults.check
              && (key in old(table).marks || (!faults.handler && (mode.Transactional? ==> !faults.claim && !faults.commit)))
      ensures effects == old(effects) + if ok && key !in old(table).marks then [key] else []
      ensures table.marks == old(table).marks + if ok && (mode.Transactional? || !faults.mark) then {key} else {}
      ensures table.open == old(table).open
    {
      if faults.check {
        return false;
      }
      if key in table.marks {
        assert table.marks == table.marks + {key} == table.marks + {};
        return true;
      }
      if mode.Transactional? {
        var ran, failed := Guard(tx, Some(key), faults);
        if failed || faults.commit {
          table := table.Rollback(tx);
          return false;
        }
        table := table.Commit(tx);
        effects := effects + [key];
        return true;
      }
      if faults.handler {
        return false;
      }
      effects := effects + [key];
      if !faults.mark {
        table := table.(marks := table.marks + {key});
      }
      return true;
    }
  }

  // ----- Deliveries -----

  datatype Phase =
    | Received
    /** Not marked at the pre-check. */
    | Checked
    /** Transactional: the transaction is open; claimed tells the result of the claim once it has run. */
    | InTransaction(claimed: Option<bool>)
    /** Only-once: the handler has committed its business writes. */
    | Marking
    /** The delivery reported success to the bus. */
    | Succeeded
    /** The delivery reported an error, or its process crashed. */
    | GaveUp

  datatype Delivery = Delivery(mode: Mode, key: MarkKey, phase: Phase)

  /** effects lists the keys of the committed business effects, in commit order. */
  datatype State = State(table: Table, deliveries: seq<Delivery>, effects: seq<MarkKey>)

  ghost predicate Init(s: State) {
    && s.table == Table({}, map[]) && s.effects == []
    && forall d :: 0 <= d < |s.deliveries| ==> s.deliveries[d].phase == Received
  }

  datatype Action =
    /** The bus delivers a message, possibly again. */
    | Deliver(mode: Mode, key: MarkKey)
    | PreCheck(d: nat)
    | Begin(d: nat)
    | Claim(d: nat)
    /** The handler's function succeeded and the transaction commits; told says whether the client learns of it. */
    | Commit(d: nat, told: bool)
    /** Only-once: the handler runs and commits its writes, then the mark is written (or fails to be). */
    | Handle(d: nat)
    | Mark(d: nat, written: bool)
    /** An error of any kind or a crash: an open transaction rolls back. */
    | Abort(d: nat)

  predicate Enabled(s: State, a: Action) {
    match a
    case Deliver(mode, key) => true
    case PreCheck(d) => d < |s.deliveries| && s.deliveries[d].phase.Received?
    case Begin(d) => d < |s.deliveries| && s.deliveries[d].phase.Checked? && s.deliveries[d].mode.Transactional?
    case Claim(d) =>
      && d < |s.deliveries| && s.deliveries[d].phase == InTransaction(None)
      && d !in s.table.open && !s.table.Held(s.deliveries[d].key, d)
    case Commit(d, told) =>
      && d < |s.deliveries| && s.deliveries[d].phase.InTransaction? && s.deliveries[d].phase.claimed.Some?
    case Handle(d) => d < |s.deliveries| && s.deliveries[d].phase.Checked? && s.deliveries[d].mode.OnlyOnce?
    case Mark(d, written) =>
      && d < |s.deliveries| && s.deliveries[d].phase.Marking?
      && (written ==> !s.table.Held(s.deliveries[d].key, d))
    case Abort(d) => d < |s.deliveries| && !s.deliveries[d].phase.Succeeded?
  }

  function To(s: State, d: nat, phase: Phase): State
    requires d < |s.deliveries|
  {
    s.(deliveries := s.deliveries[d := s.deliveries[d].(phase := phase)])
  }

  function Step(s: State, a: Action): State
    requires Enabled(s, a)
  {
    match a
    case Deliver(mode, key) => s.(deliveries := s.deliveries + [Delivery(mode, key, Received)])
    case PreCheck(d) => To(s, d, if s.deliveries[d].key in s.table.marks then Succeeded else Checked)
    case Begin(d) => To(s, d, InTransaction(None))
    case Claim(d) =>
      var (table, outcome) := s.table.Claim(s.deliveries[d].key, d);
      To(s.(table := table), d, InTransaction(Some(outcome.Claimed?)))
    case Commit(d, told) =>
      var claimed := s.deliveries[d].phase.claimed.value;
      To(s.(table := s.table.Commit(d), effects := if claimed then s.effects + [s.deliveries[d].key] else s.effects),
         d, if told then Succeeded else GaveUp)
    case Handle(d) => To(s.(effects := s.effects + [s.deliveries[d].key]), d, Marking)
    case Mark(d, written) =>
      To(if written then s.(table := s.table.(marks := s.table.marks + {s.deliveries[d].key})) else s, d, Succeeded)
    case Abort(d) => To(s.(table := s.table.Rollback(d)), d, GaveUp)
  }

  ghost predicate Run(states: seq<State>, actions: seq<Action>) {
    && |states| == |actions| + 1
    && Init(states[0])
    && forall k :: 0 <= k < |actions| ==> Enabled(states[k], actions[k]) && states[k + 1] == Step(states[k], actions[k])
  }

  function Count(effects: seq<MarkKey>, key: MarkKey): nat {
    if effects == [] then 0
    else Count(effects[..|effects| - 1], key) + if effects[|effects| - 1] == key then 1 else 0
  }

  // ----- What holds in every run -----

  /** A transaction's uncommitted mark belongs to its delivery, and no two hold one key. */
  ghost predicate ClaimsOk(s: State) {
    && (forall d :: d in s.table.open ==>
          && d < |s.deliveries|
          && s.deliveries[d].phase == InTransaction(Some(true))
          && s.table.open[d] == s.deliveries[d].key)
    && (forall d :: 0 <= d < |s.deliveries| && s.deliveries[d].phase == InTransaction(Some(true)) ==> d in s.table.open)
    && (forall d, e :: d in s.table.open && e in s.table.open && d != e ==> s.table.open[d] != s.table.open[e])
  }

  /** Success, or a lost claim, is only possible once the effect is committed; so is a mark. */
  ghost predicate EffectOk(s: State) {
    && (forall key :: key in s.table.marks ==> Count(s.effects, key) > 0)
    && (forall d :: 0 <= d < |s.deliveries| ==>
          var delivery := s.deliveries[d];
          && (delivery.phase.Succeeded? || delivery.phase.Marking? || delivery.phase == InTransaction(Some(false)) ==>
                Count(s.effects, delivery.key) > 0)
          && (delivery.phase.Marking? ==> delivery.mode.OnlyOnce?)
          && (delivery.phase.InTransaction? ==> delivery.mode.Transactional?))
  }

  ghost predicate Inv(s: State) {
    ClaimsOk(s) && EffectOk(s)
  }

  lemma CountAppend(effects: seq<MarkKey>, key: MarkKey)
    ensures forall k :: Count(effects + [key], k) == Count(effects, k) + if key == k then 1 else 0
  {
    assert (effects + [key])[..|effects|] == effects;
  }

  /** Steps that leave the table and the effects alone. */
  lemma QuietStepInv(s: State, a: Action)
    requires Inv(s) && Enabled(s, a) && (a.Deliver? || a.PreCheck? || a.Begin?)
    ensures Inv(Step(s, a))
  {
    var s' := Step(s, a);
    assert s'.table == s.table && s'.effects == s.effects;
  }

  lemma ClaimStepInv(s: State, d: nat)
    requires Inv(s) && Enabled(s, Claim(d))
    ensures Inv(Step(s, Claim(d)))
  {
    assert forall e :: e in s.table.open ==> s.table.open[e] != s.deliveries[d].key;
  }

  lemma CommitClaims(s: State, d: nat, told: bool)
    requires Inv(s) && Enabled(s, Commit(d, told))
    ensures ClaimsOk(Step(s, Commit(d, told)))
  {
  }

  lemma CommitEffects(s: State, d: nat, told: bool)
    requires Inv(s) && Enabled(s, Commit(d, told))
    ensures EffectOk(Step(s, Commit(d, told)))
  {
    var s', delivery := Step(s, Commit(d, told)), s.deliveries[d];
    CountAppend(s.effects, delivery.key);
    if delivery.phase.claimed.value {
      assert s'.effects == s.effects + [delivery.key];
      assert s'.table.marks == s.table.marks + {delivery.key};
    } else {
      assert d !in s.table.open;
      assert s'.effects == s.effects && s'.table == s.table;
    }
  }

  lemma OnlyOnceStepInv(s: State, a: Action)
    requires Inv(s) && Enabled(s, a) && (a.Handle? || a.Mark?)
    ensures Inv(Step(s, a))
  {
    var s' := Step(s, a);
    CountAppend(s.effects, s.deliveries[a.d].key);
    assert s'.table.open == s.table.open;
  }

  lemma AbortStepInv(s: State, d: nat)
    requires Inv(s) && Enabled(s, Abort(d))
    ensures Inv(Step(s, Abort(d)))
  {
    assert Step(s, Abort(d)).effects == s.effects;
  }

  lemma StepInv(s: State, a: Action)
    requires Inv(s) && Enabled(s, a)
    ensures Inv(Step(s, a))
  {
    match a
    case Claim(d) => ClaimStepInv(s, d);
    case Commit(d, told) =>
      CommitClaims(s, d, told);
      CommitEffects(s, d, told);
    case Handle(d) => OnlyOnceStepInv(s, a);
    case Mark(d, written) => OnlyOnceStepInv(s, a);
    case Abort(d) => AbortStepInv(s, d);
    case _ => QuietStepInv(s, a);
  }

  lemma {:induction false} RunInv(states: seq<State>, actions: seq<Action>, k: nat)
    requires Run(states, actions) && k < |states|
    ensures Inv(states[k])
  {
    if k > 0 {
      RunInv(states, actions, k - 1);
      StepInv(states[k - 1], actions[k - 1]);
    }
  }

  /** In either mode, a delivery that reports success means that the effect is committed. */
  lemma SuccessMeansEffect(states: seq<State>, actions: seq<Action>, k: nat, d: nat)
    requires Run(states, actions) && k < |states| && d < |states[k].deliveries|
    requires states[k].deliveries[d].phase.Succeeded?
    ensures Count(states[k].effects, states[k].deliveries[d].key) > 0
  {
    RunInv(states, actions, k);
  }

  /** Every delivery of the key uses the transactional mode. */
  ghost predicate OnlyTransactional(s: State, key: MarkKey) {
    forall d :: 0 <= d < |s.deliveries| && s.deliveries[d].key == key ==> s.deliveries[d].mode.Transactional?
  }

  lemma TransactionalBefore(s: State, a: Action, key: MarkKey)
    requires Enabled(s, a) && OnlyTransactional(Step(s, a), key)
    ensures OnlyTransactional(s, key)
  {
    forall d | 0 <= d < |s.deliveries| && s.deliveries[d].key == key
      ensures s.deliveries[d].mode.Transactional?
    {
      assert Step(s, a).deliveries[d].key == key;
    }
  }

  /** The mark of a key stands for its one effect, and a claimed key is unmarked until its transaction commits. */
  ghost predicate KeyOk(s: State, key: MarkKey) {
    && Count(s.effects, key) == (if key in s.table.marks then 1 else 0)
    && forall d :: d in s.table.open && s.table.open[d] == key ==> key !in s.table.marks
  }

  lemma KeyStep(s: State, a: Action, key: MarkKey)
    requires Inv(s) && Enabled(s, a) && KeyOk(s, key) && OnlyTransactional(s, key)
    ensures KeyOk(Step(s, a), key)
  {
    if a.Commit? {
      KeyCommit(s, a.d, a.told, key);
    } else if a.Claim? {
      KeyClaim(s, a.d, key);
    } else if a.Handle? || a.Mark? {
      KeyHandle(s, a, key);
    } else {
      KeyQuiet(s, a, key);
    }
  }

  lemma KeyCommit(s: State, d: nat, told: bool, key: MarkKey)
    requires Inv(s) && Enabled(s, Commit(d, told)) && KeyOk(s, key) && OnlyTransactional(s, key)
    ensures KeyOk(Step(s, Commit(d, told)), key)
  {
    CountAppend(s.effects, s.deliveries[d].key);
  }

  lemma KeyClaim(s: State, d: nat, key: MarkKey)
    requires Inv(s) && Enabled(s, Claim(d)) && KeyOk(s, key)
    ensures KeyOk(Step(s, Claim(d)), key)
  {
  }

  /** A handler that commits without a claim is of another key. */
  lemma KeyHandle(s: State, a: Action, key: MarkKey)
    requires Inv(s) && Enabled(s, a) && (a.Handle? || a.Mark?) && KeyOk(s, key) && OnlyTransactional(s, key)
    ensures KeyOk(Step(s, a), key)
  {
    assert s.deliveries[a.d].key != key;
    OtherKeyEffects(s, a, key);
  }

  lemma KeyQuiet(s: State, a: Action, key: MarkKey)
    requires Inv(s) && Enabled(s, a) && (a.Deliver? || a.PreCheck? || a.Begin? || a.Abort?) && KeyOk(s, key)
    ensures KeyOk(Step(s, a), key)
  {
    assert Step(s, a).effects == s.effects && Step(s, a).table.marks == s.table.marks;
  }

  lemma {:induction false} RunKeyOk(states: seq<State>, actions: seq<Action>, k: nat, key: MarkKey)
    requires Run(states, actions) && k < |states| && OnlyTransactional(states[k], key)
    ensures KeyOk(states[k], key)
  {
    if k > 0 {
      TransactionalBefore(states[k - 1], actions[k - 1], key);
      RunKeyOk(states, actions, k - 1, key);
      RunInv(states, actions, k - 1);
      KeyStep(states[k - 1], actions[k - 1], key);
    }
  }

  /**
   Transactional mode: whatever deliveries of the key run concurrently and wherever they crash, its
   business effect is committed at most once.
   */
  lemma AtMostOneEffect(states: seq<State>, actions: seq<Action>, k: nat, key: MarkKey)
    requires Run(states, actions) && k < |states| && OnlyTransactional(states[k], key)
    ensures Count(states[k].effects, key) <= 1
  {
    RunKeyOk(states, actions, k, key);
  }

  // ----- When the only-once mode is at most once -----

  /** What is allowed to happen to the deliveries of one key. */
  datatype Policy = Policy(overlap: bool, lostMark: bool, crashBeforeMark: bool)

  predicate InFlight(p: Phase) {
    p.Checked? || p.InTransaction? || p.Marking?
  }

  predicate InFlightFor(d: Delivery, key: MarkKey) {
    d.key == key && InFlight(d.phase)
  }

  predicate NoneInFlight(s: State, key: MarkKey) {
    forall d :: 0 <= d < |s.deliveries| ==> !InFlightFor(s.deliveries[d], key)
  }

  /** Whether the policy allows a step for the deliveries of the key; it says nothing about other keys. */
  predicate Allows(p: Policy, s: State, a: Action, key: MarkKey)
    requires Enabled(s, a)
  {
    match a
    case PreCheck(d) => s.deliveries[d].key == key && !p.overlap ==> NoneInFlight(s, key)
    case Mark(d, written) => s.deliveries[d].key == key && !p.lostMark ==> written
    case Abort(d) => s.deliveries[d].key == key && s.deliveries[d].phase.Marking? ==> p.crashBeforeMark
    case _ => true
  }

  ghost predicate Obeys(p: Policy, states: seq<State>, actions: seq<Action>, key: MarkKey) {
    Run(states, actions) && forall k :: 0 <= k < |actions| ==> Allows(p, states[k], actions[k], key)
  }

  const STRICT := Policy(false, false, false)

  /** One delivery at a time is in flight, and the effects are told from where it is. */
  ghost predicate Tally(s: State, key: MarkKey) {
    && (forall d, e | 0 <= d < |s.deliveries| && 0 <= e < |s.deliveries| && d != e ::
          !(InFlightFor(s.deliveries[d], key) && InFlightFor(s.deliveries[e], key)))
    && (forall d :: 0 <= d < |s.deliveries| && InFlightFor(s.deliveries[d], key) ==>
          key !in s.table.marks && Count(s.effects, key) == if s.deliveries[d].phase.Marking? then 1 else 0)
    && (NoneInFlight(s, key) ==> Count(s.effects, key) == if key in s.table.marks then 1 else 0)
  }

  lemma OtherKeyEffects(s: State, a: Action, key: MarkKey)
    requires Inv(s) && Enabled(s, a) && !a.Deliver? && s.deliveries[a.d].key != key
    ensures Count(Step(s, a).effects, key) == Count(s.effects, key)
    ensures key in Step(s, a).table.marks <==> key in s.table.marks
  {
    if a.Commit? || a.Handle? {
      CountAppend(s.effects, s.deliveries[a.d].key);
    }
  }

  lemma OtherKeyPhases(s: State, a: Action, key: MarkKey)
    requires Enabled(s, a) && !a.Deliver? && s.deliveries[a.d].key != key
    ensures |Step(s, a).deliveries| == |s.deliveries|
    ensures forall d :: 0 <= d < |s.deliveries| && d != a.d ==> Step(s, a).deliveries[d] == s.deliveries[d]
    ensures Step(s, a).deliveries[a.d].key != key
  {
  }

  /** A step of another key's delivery does not touch this key. */
  lemma OtherKeyTally(s: State, a: Action, key: MarkKey)
    requires Inv(s) && Tally(s, key) && Enabled(s, a) && !a.Deliver? && s.deliveries[a.d].key != key
    ensures Tally(Step(s, a), key)
  {
    var s' := Step(s, a);
    OtherKeyEffects(s, a, key);
    OtherKeyPhases(s, a, key);
    assert forall d :: 0 <= d < |s.deliveries| ==> InFlightFor(s'.deliveries[d], key) == InFlightFor(s.deliveries[d], key);
    assert NoneInFlight(s', key) <==> NoneInFlight(s, key);
  }

  lemma OwnKeyTally(s: State, a: Action, key: MarkKey)
    requires Inv(s) && Tally(s, key) && Enabled(s, a) && !a.Deliver? && s.deliveries[a.d].key == key
    requires Allows(STRICT, s, a, key)
    ensures Tally(Step(s, a), key)
  {
    var s' := Step(s, a);
    CountAppend(s.effects, key);
    assert forall d :: 0 <= d < |s.deliveries| && d != a.d ==> s'.deliveries[d] == s.deliveries[d];
    var phase, phase' := s.deliveries[a.d].phase, s'.deliveries[a.d].phase;
    if InFlight(phase) || a.PreCheck? {
      assert forall d :: 0 <= d < |s.deliveries| && d != a.d ==> !InFlightFor(s.deliveries[d], key);
      assert NoneInFlight(s', key) <==> !InFlight(phase');
    } else {
      assert a.Abort? && !InFlight(phase');
      assert NoneInFlight(s', key) ==> NoneInFlight(s, key);
    }
  }

  lemma TallyStep(s: State, a: Action, key: MarkKey)
    requires Inv(s) && Tally(s, key) && Enabled(s, a) && Allows(STRICT, s, a, key)
    ensures Tally(Step(s, a), key)
  {
    if a.Deliver? {
      assert NoneInFlight(Step(s, a), key) ==> NoneInFlight(s, key) by {
        assert forall d :: 0 <= d < |s.deliveries| ==> Step(s, a).deliveries[d] == s.deliveries[d];
      }
    } else if s.deliveries[a.d].key == key {
      OwnKeyTally(s, a, key);
    } else {
      OtherKeyTally(s, a, key);
    }
  }

  lemma {:induction false} StrictTally(states: seq<State>, actions: seq<Action>, k: nat, key: MarkKey)
    requires Obeys(STRICT, states, actions, key) && k < |states|
    ensures Tally(states[k], key)
  {
    if k > 0 {
      StrictTally(states, actions, k - 1, key);
      RunInv(states, actions, k - 1);
      TallyStep(states[k - 1], actions[k - 1], key);
    }
  }

  ghost predicate AtMostOnce(p: Policy, key: MarkKey) {
    forall states: seq<State>, actions: seq<Action> :: Obeys(p, states, actions, key) ==> Count(states[|actions|].effects, key) <= 1
  }

  // Runs that a policy allows, built step by step.

  type Reach = State -> bool

  ghost predicate Closed(p: Policy, key: MarkKey, reach: Reach) {
    forall s, a :: reach(s) && Enabled(s, a) && Allows(p, s, a, key) ==> reach(Step(s, a))
  }

  /** Some run the policy allows ends in the state. */
  ghost predicate Reaches(p: Policy, key: MarkKey, s: State) {
    exists states: seq<State>, actions: seq<Action> :: Obeys(p, states, actions, key) && states[|actions|] == s
  }

  lemma ObeysExtended(p: Policy, key: MarkKey, states: seq<State>, actions: seq<Action>, a: Action)
    requires Obeys(p, states, actions, key) && Enabled(states[|actions|], a) && Allows(p, states[|actions|], a, key)
    ensures Obeys(p, states + [Step(states[|actions|], a)], actions + [a], key)
  {
  }

  lemma ReachesIsClosed(p: Policy, key: MarkKey)
    ensures Closed(p, key, s => Reaches(p, key, s)) && Reaches(p, key, Empty())
  {
    var reach := s => Reaches(p, key, s);
    forall s, a | reach(s) && Enabled(s, a) && Allows(p, s, a, key) ensures reach(Step(s, a)) {
      var states: seq<State>, actions: seq<Action> :| Obeys(p, states, actions, key) && states[|actions|] == s;
      ObeysExtended(p, key, states, actions, a);
      assert (states + [Step(s, a)])[|actions + [a]|] == Step(s, a);
    }
    assert Obeys(p, [Empty()], [], key) && [Empty()][0] == Empty();
  }

  function Empty(): State {
    State(Table({}, map[]), [], [])
  }

  /** One only-once delivery of the key as far as its committed handler. */
  lemma HandleOnce(p: Policy, key: MarkKey, reach: Reach) returns (s: State)
    requires Closed(p, key, reach) && reach(Empty())
    ensures reach(s) && s == State(Table({}, map[]), [Delivery(OnlyOnce, key, Marking)], [key])
  {
    s := Step(Empty(), Deliver(OnlyOnce, key));
    s := Step(s, PreCheck(0));
    s := Step(s, Handle(0));
    assert [] + [key] == [key];
  }

  /** One transactional delivery of the key, from its claim to its commit. */
  lemma ClaimOnce(p: Policy, key: MarkKey, reach: Reach) returns (s: State)
    requires Closed(p, key, reach) && reach(Empty())
    ensures reach(s) && s == State(Table({key}, map[]), [Delivery(Transactional, key, Succeeded)], [key])
  {
    s := Step(Empty(), Deliver(Transactional, key));
    s := Step(s, PreCheck(0));
    var begun := Step(s, Begin(0));
    assert reach(begun);
    s := Step(begun, Claim(0));
    assert reach(s) && s.table == Table({}, map[0 := key]);
    s := Step(s, Commit(0, true));
    assert map[0 := key] - {0} == map[];
    assert {} + {key} == {key} && [] + [key] == [key];
  }

  /** In transactional mode the effect is committed exactly once, in some run, and never more often in any. */
  lemma TransactionalCommitsOnce(key: MarkKey) returns (states: seq<State>, actions: seq<Action>)
    ensures Run(states, actions) && OnlyTransactional(states[|actions|], key) && Count(states[|actions|].effects, key) == 1
    ensures |states[|actions|].deliveries| == 1 && states[|actions|].deliveries[0].phase.Succeeded?
  {
    ReachesIsClosed(STRICT, key);
    var s := ClaimOnce(STRICT, key, s => Reaches(STRICT, key, s));
    states, actions :| Obeys(STRICT, states, actions, key) && states[|actions|] == s;
    assert [key][..0] == [];
  }

  /** A later only-once delivery of an unmarked key, when none is in flight or overlaps are allowed. */
  lemma HandleAgain(p: Policy, key: MarkKey, reach: Reach, before: State) returns (s: State)
    requires Closed(p, key, reach) && reach(before)
    requires |before.deliveries| == 1 && before.table == Table({}, map[]) && before.effects == [key]
    requires p.overlap || NoneInFlight(before, key)
    ensures reach(s) && s.effects == [key, key]
  {
    s := Step(before, Deliver(OnlyOnce, key));
    assert s.deliveries == [before.deliveries[0], Delivery(OnlyOnce, key, Received)];
    var s' := Step(s, PreCheck(1));
    assert reach(s');
    s := Step(s', Handle(1));
    assert [key] + [key] == [key, key];
  }

  /** Any leniency lets the effect be committed twice: overlapping deliveries, a lost mark, or a crash before the mark. */
  lemma LenientCanRepeat(p: Policy, key: MarkKey, reach: Reach) returns (s: State)
    requires p != STRICT && Closed(p, key, reach) && reach(Empty())
    ensures reach(s) && s.effects == [key, key]
  {
    var once := HandleOnce(p, key, reach);
    if p.lostMark {
      once := Step(once, Mark(0, false));
    } else if p.crashBeforeMark {
      once := Step(once, Abort(0));
      assert Table({}, map[]).Rollback(0) == Table({}, map[]);
    }
    s := HandleAgain(p, key, reach, once);
  }

  /**
   Exactly when the business effect of a key is committed at most once in every run, only-once
   deliveries included: when its deliveries do not overlap, every mark is written, and no delivery
   crashes between its handler's commit and its mark.
   */
  lemma AtMostOnceIff(p: Policy, key: MarkKey)
    ensures AtMostOnce(p, key) <==> p == STRICT
  {
    if p == STRICT {
      forall states: seq<State>, actions: seq<Action> | Obeys(p, states, actions, key)
        ensures Count(states[|actions|].effects, key) <= 1
      {
        StrictTally(states, actions, |actions|, key);
        TallyBound(states[|actions|], key);
      }
    } else {
      ReachesIsClosed(p, key);
      var s := LenientCanRepeat(p, key, s => Reaches(p, key, s));
      var states: seq<State>, actions: seq<Action> :| Obeys(p, states, actions, key) && states[|actions|] == s;
      CountAppend([], key);
      CountAppend([key], key);
      assert [] + [key] == [key] && [key] + [key] == [key, key];
      assert Count(states[|actions|].effects, key) == 2;
    }
  }

  lemma TallyBound(s: State, key: MarkKey)
    requires Tally(s, key)
    ensures Count(s.effects, key) <= 1
  {
    if !NoneInFlight(s, key) {
      var d :| 0 <= d < |s.deliveries| && InFlightFor(s.deliveries[d], key);
    }
  }

  // ----- Colliding keys -----

  /**
   When two consumers' messages share a key, the second consumer's message counts as processed by the
   first one's: its delivery succeeds and only the first one's effect is ever committed.
   */
  lemma CollisionSkipsMessage(key: MarkKey, other: MarkKey, mode: Mode, reach: Reach) returns (s: State)
    requires key == other && Closed(STRICT, key, reach) && reach(Empty())
    ensures reach(s) && s.effects == [key]
    ensures s.deliveries == [Delivery(OnlyOnce, key, Succeeded), Delivery(mode, other, Succeeded)]
  {
    var first := HandleOnce(STRICT, key, reach);
    var marked := Step(first, Mark(0, true));
    assert marked.table.marks == {key};
    var sent := Step(marked, Deliver(mode, other));
    assert sent.deliveries == [Delivery(OnlyOnce, key, Succeeded), Delivery(mode, other, Received)];
    assert reach(sent);
    s := Step(sent, PreCheck(1));
  }

  /** For every two consumers whose key spaces overlap there are such messages. */
  lemma OverlappingConsumersSkip(group: string, topic: string, group': string, topic': string, mode: Mode)
      returns (k: string, k': string, states: seq<State>, actions: seq<Action>)
    requires KeySpace(group, topic) <= KeySpace(group', topic') || KeySpace(group', topic') <= KeySpace(group, topic)
    ensures Run(states, actions)
    ensures var s, key, other := states[|actions|], MarkKey(Key(group, topic, k)), MarkKey(Key(group', topic', k'));
      s.effects == [key] && s.deliveries == [Delivery(OnlyOnce, key, Succeeded), Delivery(mode, other, Succeeded)]
  {
    KeySpacesCollideIffPrefix(group, topic, group', topic');
    k, k' :| Key(group, topic, k) == Key(group', topic', k');
    var key := MarkKey(Key(group, topic, k));
    ReachesIsClosed(STRICT, key);
    var s := CollisionSkipsMessage(key, MarkKey(Key(group', topic', k')), mode, s => Reaches(STRICT, key, s));
    states, actions :| Obeys(STRICT, states, actions, key) && states[|actions|] == s;
  }
}

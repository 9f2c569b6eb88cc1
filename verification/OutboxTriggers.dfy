/**
 When a flush pass runs. Triggers (notifications and the periodic sweep) go through a channel of
 capacity one whose send never blocks; a single worker takes the token and runs one pass at a time.
 The actor of the Scala client keeps the same promise with two flags, and is shown to refine the
 channel.

 Times are positions in the sequence of events. A queued row is identified by the time of its insert.
 */
module OutboxTriggers {
  import opened Wrappers

  datatype Pass =
    | Idle
    /** emptied is the time of a fetch that found the outbox empty, the last fetch of a clean pass. */
    | Running(started: nat, emptied: Option<nat>)

  datatype State = State(
    now: nat,
    token: bool,
    pass: Pass,
    queue: set<nat>,
    triggers: set<nat>,
    lastStart: Option<nat>,
    lastClean: bool)

  datatype Event =
    | Insert
    | Trigger
    | Start
    /** The pass deletes some rows, or fails to. */
    | Deliver(left: set<nat>)
    | FetchNothing
    /** Clean means without an error and without failed topics; Flusher.Flush proves that such a pass found nothing at its last fetch. */
    | End(clean: bool)

  function Initial(queue: set<nat>): State {
    State(0, false, Idle, queue, {}, None, false)
  }

  predicate Enabled(s: State, e: Event) {
    match e
    case Insert => true
    case Trigger => true
    case Start => s.token && s.pass.Idle?
    case Deliver(left) => s.pass.Running? && left <= s.queue
    case FetchNothing => s.pass.Running? && s.queue == {}
    case End(clean) => s.pass.Running? && (clean ==> s.pass.emptied.Some?)
  }

  /** A trigger while the token is there coalesces with it. */
  function Step(s: State, e: Event): State
    requires Enabled(s, e)
  {
    var t := s.(now := s.now + 1);
    match e
    case Insert => t.(queue := s.queue + {s.now})
    case Trigger => t.(token := true, triggers := s.triggers + {s.now})
    case Start => t.(token := false, pass := Running(s.now, None), lastStart := Some(s.now))
    case Deliver(left) => t.(queue := left)
    case FetchNothing => t.(pass := s.pass.(emptied := Some(s.now)))
    case End(clean) => t.(pass := Idle, lastClean := clean)
  }

  ghost predicate Run(states: seq<State>, events: seq<Event>) {
    && |states| == |events| + 1
    && states[0].now == 0 && (exists q: set<nat> :: (forall r :: r in q ==> r == 0) && states[0] == Initial(q))
    && forall k :: 0 <= k < |events| ==> Enabled(states[k], events[k]) && states[k + 1] == Step(states[k], events[k])
  }

  /** A trigger is remembered by the token, or a pass has started since. */
  ghost predicate Remembered(s: State, t: nat) {
    s.token || (s.lastStart.Some? && t < s.lastStart.value)
  }

  ghost predicate Inv(s: State) {
    && (forall t :: t in s.triggers ==> t < s.now && Remembered(s, t))
    && (forall r :: r in s.queue ==> r <= s.now)
    && (s.lastStart.Some? ==> s.lastStart.value < s.now)
    && (s.pass.Running? ==>
          && s.lastStart == Some(s.pass.started)
          && (s.pass.emptied.Some? ==>
                && s.pass.started < s.pass.emptied.value < s.now
                && forall r :: r in s.queue ==> s.pass.emptied.value < r))
    && (s.pass.Idle? && s.lastClean ==> s.lastStart.Some? && forall r :: r in s.queue ==> s.lastStart.value < r)
  }

  lemma StepInv(s: State, e: Event)
    requires Inv(s) && Enabled(s, e)
    ensures Inv(Step(s, e))
  {
  }

  lemma {:induction false} RunInv(states: seq<State>, events: seq<Event>, k: nat)
    requires Run(states, events) && k < |states|
    ensures Inv(states[k])
  {
    if k > 0 {
      RunInv(states, events, k - 1);
      StepInv(states[k - 1], events[k - 1]);
    }
  }

  /** In every reachable state every trigger is still remembered or a pass started after it. */
  lemma NoTriggerLost(states: seq<State>, events: seq<Event>, k: nat, t: nat)
    requires Run(states, events) && k < |states| && t in states[k].triggers
    ensures Remembered(states[k], t)
  {
    RunInv(states, events, k);
  }

  /**
   Once idle with no token left after a clean pass, the outbox holds only rows inserted after every
   trigger so far.
   */
  lemma IdleMeansDrained(states: seq<State>, events: seq<Event>, k: nat, r: nat, t: nat)
    requires Run(states, events) && k < |states|
    requires var s := states[k]; s.pass.Idle? && !s.token && s.lastClean && r in s.queue && t in s.triggers
    ensures t < r
  {
    RunInv(states, events, k);
    assert Remembered(states[k], t);
  }

  // ----- The actor of the Scala client -----

  /** sent is the time of a trigger; clean says how the pass that finished went. Neither reaches the actor. */
  datatype Message = ProcessMessage(sent: nat) | ProcessingFinished(clean: bool)

  datatype ActorState = ActorState(inProgress: bool, pending: bool)

  class FlusherActor {
    var inProgress: bool
    var pending: bool

    ghost function Model(): ActorState
      reads this
    {
      ActorState(inProgress, pending)
    }

    constructor ()
      ensures Model() == ActorState(false, false)
    {
      inProgress, pending := false, false;
    }

    /** Reports whether a pass is started. */
    method Receive(m: Message) returns (started: bool)
      modifies this
      ensures Model() == OnMessage(old(Model()), m)
      ensures started == Starts(old(Model()), m)
      ensures m.ProcessMessage? ==>
                inProgress && (started <==> !old(inProgress)) && (pending <==> old(pending) || old(inProgress))
      ensures m.ProcessingFinished? ==> !pending && (started <==> old(pending)) && (inProgress <==> old(pending))
    {
      started := false;
      match m
      case ProcessMessage(_) =>
        if inProgress {
          pending := true;
        } else {
          inProgress, started := true, true;
        }
      case ProcessingFinished(_) =>
        inProgress := false;
        if pending {
          pending := false;
          inProgress, started := true, true;
        }
    }
  }

  function OnMessage(a: ActorState, m: Message): ActorState {
    match m
    case ProcessMessage(_) => if a.inProgress then a.(pending := true) else a.(inProgress := true)
    case ProcessingFinished(_) => ActorState(a.pending, false)
  }

  predicate Starts(a: ActorState, m: Message) {
    match m
    case ProcessMessage(_) => !a.inProgress
    case ProcessingFinished(_) => a.pending
  }

  /** What one received message is in terms of the channel: a trigger, or the end of a pass, and maybe a start. */
  function AsEvents(a: ActorState, m: Message): seq<Event> {
    var first := if m.ProcessMessage? then Trigger else End(m.clean);
    if Starts(a, m) then [first, Start] else [first]
  }

  /** The events one after another; one that is not enabled is dropped, which is shown never to happen. */
  function Follow(s: State, events: seq<Event>): State
    decreases |events|
  {
    if events == [] then s
    else Follow(if Enabled(s, events[0]) then Step(s, events[0]) else s, events[1..])
  }

  ghost predicate Steps(s: State, events: seq<Event>, s': State)
    decreases |events|
  {
    if events == [] then s' == s
    else Enabled(s, events[0]) && Steps(Step(s, events[0]), events[1..], s')
  }

  /**
   The actor with its mailbox and the passes really running as futures, beside the channel that its
   handled messages amount to; sent holds the time of every trigger sent so far.
   */
  datatype System = System(actor: ActorState, mailbox: seq<Message>, passes: nat, channel: State, sent: set<nat>)

  datatype SystemEvent =
    | Send
    | FutureDone(clean: bool)
    | Receive
    /** An insert, or what the running pass does to the outbox. */
    | Happens(event: Event)

  /**
   A future may call its pass clean only after a fetch that found the outbox empty, as
   FlusherPass.ProcessMessages proves of a pass without a broken fetch and without failed topics.
   */
  predicate SystemEnabled(s: System, e: SystemEvent) {
    match e
    case Send => true
    case FutureDone(clean) => s.passes > 0 && (clean ==> s.channel.pass.Running? && s.channel.pass.emptied.Some?)
    case Receive => s.mailbox != []
    case Happens(event) => Enabled(s.channel, event) && (event.Insert? || (s.passes > 0 && (event.Deliver? || event.FetchNothing?)))
  }

  function SystemStep(s: System, e: SystemEvent): System
    requires SystemEnabled(s, e)
  {
    match e
    case Send => s.(mailbox := s.mailbox + [ProcessMessage(s.channel.now)], sent := s.sent + {s.channel.now})
    case FutureDone(clean) => s.(passes := s.passes - 1, mailbox := s.mailbox + [ProcessingFinished(clean)])
    case Receive =>
      var m := s.mailbox[0];
      s.(actor := OnMessage(s.actor, m), mailbox := s.mailbox[1..], passes := s.passes + if Starts(s.actor, m) then 1 else 0,
         channel := Follow(s.channel, AsEvents(s.actor, m)))
    case Happens(event) => s.(channel := Step(s.channel, event))
  }

  ghost predicate SystemRun(states: seq<System>, events: seq<SystemEvent>) {
    && |states| == |events| + 1
    && states[0] == System(ActorState(false, false), [], 0, Initial(states[0].channel.queue), {})
    && (forall r :: r in states[0].channel.queue ==> r == 0)
    && forall k :: 0 <= k < |events| ==> SystemEnabled(states[k], events[k]) && states[k + 1] == SystemStep(states[k], events[k])
  }

  function Finishes(mailbox: seq<Message>): nat {
    if mailbox == [] then 0 else (if mailbox[0].ProcessingFinished? then 1 else 0) + Finishes(mailbox[1..])
  }

  lemma {:induction false} FinishesAppend(mailbox: seq<Message>, m: Message)
    ensures Finishes(mailbox + [m]) == Finishes(mailbox) + if m.ProcessingFinished? then 1 else 0
  {
    if mailbox != [] {
      assert (mailbox + [m])[1..] == mailbox[1..] + [m];
      FinishesAppend(mailbox[1..], m);
    }
  }

  /** The actor's flags are the channel's token and whether its worker is busy. */
  ghost predicate Refines(a: ActorState, s: State) {
    && a.pending == s.token
    && a.inProgress == s.pass.Running?
  }

  /** At most one pass runs, and the flag says whether one runs or has just finished. */
  ghost predicate OnePass(s: System) {
    && s.passes + Finishes(s.mailbox) == (if s.actor.inProgress then 1 else 0)
    && (s.actor.pending ==> s.actor.inProgress)
  }

  /** A finished message that calls its pass clean comes from a pass whose last fetch found nothing. */
  ghost predicate CleanIsTrue(s: System) {
    forall i :: 0 <= i < |s.mailbox| && s.mailbox[i] == ProcessingFinished(true) ==>
      s.channel.pass.Running? && s.channel.pass.emptied.Some?
  }

  /** A trigger is still in the mailbox, or pending, or a pass has started since it was sent. */
  ghost predicate StillKept(s: System, t: nat) {
    ProcessMessage(t) in s.mailbox || s.actor.pending || (s.channel.lastStart.Some? && t <= s.channel.lastStart.value)
  }

  ghost predicate SentKept(s: System) {
    forall t :: t in s.sent ==> t <= s.channel.now && StillKept(s, t)
  }

  ghost predicate SystemInv(s: System) {
    OnePass(s) && Refines(s.actor, s.channel) && Inv(s.channel) && CleanIsTrue(s) && SentKept(s)
  }

  /** Handling one message is a sequence of enabled channel steps and keeps the flags in line with the channel. */
  lemma ActorRefinesChannel(a: ActorState, m: Message, s: State)
    requires Refines(a, s) && (a.pending ==> a.inProgress)
    requires m.ProcessingFinished? ==> Enabled(s, End(m.clean))
    ensures Steps(s, AsEvents(a, m), Follow(s, AsEvents(a, m))) && Refines(OnMessage(a, m), Follow(s, AsEvents(a, m)))
    ensures Starts(a, m) ==> Follow(s, AsEvents(a, m)).lastStart == Some(s.now + 1)
    ensures !Starts(a, m) ==> Follow(s, AsEvents(a, m)).lastStart == s.lastStart
    ensures Follow(s, AsEvents(a, m)).now > s.now
    ensures Inv(s) ==> Inv(Follow(s, AsEvents(a, m)))
  {
    var events := AsEvents(a, m);
    var s1 := Step(s, events[0]);
    if Starts(a, m) {
      assert events[1..] == [Start] && [Start][1..] == [];
      assert Follow(s, events) == Follow(s1, [Start]) == Follow(Step(s1, Start), []) == Step(s1, Start);
      assert Steps(s1, [Start], Step(s1, Start));
      if Inv(s) {
        StepInv(s, events[0]);
        StepInv(s1, Start);
      }
    } else {
      assert events[1..] == [];
      assert Follow(s, events) == Follow(s1, []) == s1;
      if Inv(s) {
        StepInv(s, events[0]);
      }
    }
  }

  lemma ReceiveInv(s: System)
    requires SystemInv(s) && s.mailbox != []
    ensures SystemInv(SystemStep(s, Receive))
    ensures Steps(s.channel, AsEvents(s.actor, s.mailbox[0]), SystemStep(s, Receive).channel)
  {
    var m, s' := s.mailbox[0], SystemStep(s, Receive);
    ActorRefinesChannel(s.actor, m, s.channel);
    assert s.mailbox == [m] + s'.mailbox;
    NoOtherFinish(s);
    forall t | t in s'.sent ensures StillKept(s', t) {
      assert StillKept(s, t);
    }
  }

  lemma {:induction false} FinishesCount(mailbox: seq<Message>, m: Message)
    requires m in mailbox && m.ProcessingFinished?
    ensures Finishes(mailbox) > 0
  {
    if mailbox[0] != m {
      FinishesCount(mailbox[1..], m);
    }
  }

  /** When the actor handles the end of a pass, no other end is waiting; while it is idle, none is. */
  lemma NoOtherFinish(s: System)
    requires OnePass(s) && s.mailbox != []
    ensures s.mailbox[0].ProcessingFinished? || !s.actor.inProgress ==> forall i :: 0 <= i < |s.mailbox[1..]| ==> s.mailbox[1..][i].ProcessMessage?
  {
    forall i | 0 <= i < |s.mailbox[1..]| && (s.mailbox[0].ProcessingFinished? || !s.actor.inProgress)
      ensures s.mailbox[1..][i].ProcessMessage?
    {
      if s.mailbox[1..][i].ProcessingFinished? {
        FinishesCount(s.mailbox[1..], s.mailbox[1..][i]);
      }
    }
  }

  lemma SystemStepInv(s: System, e: SystemEvent)
    requires SystemInv(s) && SystemEnabled(s, e)
    ensures SystemInv(SystemStep(s, e))
  {
    var s' := SystemStep(s, e);
    match e
    case Receive => ReceiveInv(s);
    case Send =>
      FinishesAppend(s.mailbox, ProcessMessage(s.channel.now));
      forall t | t in s'.sent ensures StillKept(s', t) {
        assert t in s.sent ==> StillKept(s, t);
      }
    case FutureDone(clean) =>
      FinishesAppend(s.mailbox, ProcessingFinished(clean));
      forall t | t in s'.sent ensures StillKept(s', t) {
        assert StillKept(s, t);
      }
    case Happens(event) =>
      StepInv(s.channel, event);
      forall t | t in s'.sent ensures StillKept(s', t) {
        assert StillKept(s, t);
      }
  }

  lemma {:induction false} SystemRunInv(states: seq<System>, events: seq<SystemEvent>, k: nat)
    requires SystemRun(states, events) && k < |states|
    ensures SystemInv(states[k])
  {
    if k > 0 {
      SystemRunInv(states, events, k - 1);
      SystemStepInv(states[k - 1], events[k - 1]);
    }
  }

  // ----- What the actor promises in every run -----

  /** At most one pass runs, and the flag says whether one runs or has just finished. */
  lemma OnePassAtATime(states: seq<System>, events: seq<SystemEvent>, k: nat)
    requires SystemRun(states, events) && k < |states|
    ensures OnePass(states[k]) && states[k].passes <= 1
  {
    SystemRunInv(states, events, k);
  }

  /** Every trigger sent is still in the mailbox, or pending, or a pass started at or after it. */
  lemma SentTriggersAreKept(states: seq<System>, events: seq<SystemEvent>, k: nat, t: nat)
    requires SystemRun(states, events) && k < |states| && t in states[k].sent
    ensures StillKept(states[k], t)
  {
    SystemRunInv(states, events, k);
  }

  /** As long as no pass has started since a trigger was sent, a pass runs or a message waits: the actor is never at rest. */
  lemma TriggerIsNotForgotten(states: seq<System>, events: seq<SystemEvent>, k: nat, t: nat)
    requires SystemRun(states, events) && k < |states| && t in states[k].sent
    requires states[k].channel.lastStart.None? || states[k].channel.lastStart.value < t
    ensures states[k].passes > 0 || states[k].mailbox != []
    ensures !states[k].actor.inProgress ==> !states[k].actor.pending && ProcessMessage(t) in states[k].mailbox
  {
    SystemRunInv(states, events, k);
    assert StillKept(states[k], t);
  }

  /** Idle with an empty mailbox after a clean pass, the outbox holds only rows inserted after every trigger sent. */
  lemma ActorIdleMeansDrained(states: seq<System>, events: seq<SystemEvent>, k: nat, r: nat, t: nat)
    requires SystemRun(states, events) && k < |states|
    requires var s := states[k];
      && s.mailbox == [] && !s.actor.inProgress && s.channel.lastClean
      && r in s.channel.queue && t in s.sent
    ensures t < r
  {
    SystemRunInv(states, events, k);
    assert StillKept(states[k], t);
  }

  lemma {:induction false} ChannelGoesOn(cs: seq<State>, ce: seq<Event>, events: seq<Event>, s': State)
      returns (cs': seq<State>, ce': seq<Event>)
    requires Run(cs, ce) && Steps(cs[|ce|], events, s')
    ensures Run(cs', ce') && cs'[|ce'|] == s'
    decreases |events|
  {
    if events == [] {
      cs', ce' := cs, ce;
    } else {
      var next := Step(cs[|ce|], events[0]);
      cs', ce' := ChannelGoesOn(cs + [next], ce + [events[0]], events[1..], s');
    }
  }

  /** Every run of the actor is a run of the channel, with the flags in line all along, so the channel's guarantees are the actor's. */
  lemma {:induction false} ActorRunsAreChannelRuns(states: seq<System>, events: seq<SystemEvent>, k: nat)
      returns (cs: seq<State>, ce: seq<Event>)
    requires SystemRun(states, events) && k < |states|
    ensures Run(cs, ce) && cs[|ce|] == states[k].channel && Refines(states[k].actor, cs[|ce|])
  {
    SystemRunInv(states, events, k);
    if k == 0 {
      cs, ce := [states[0].channel], [];
    } else {
      cs, ce := ActorRunsAreChannelRuns(states, events, k - 1);
      SystemRunInv(states, events, k - 1);
      var s, e := states[k - 1], events[k - 1];
      if e.Receive? {
        ReceiveInv(s);
        cs, ce := ChannelGoesOn(cs, ce, AsEvents(s.actor, s.mailbox[0]), states[k].channel);
      } else if e.Happens? {
        assert [e.event][1..] == [];
        assert Steps(Step(s.channel, e.event), [], states[k].channel);
        cs, ce := ChannelGoesOn(cs, ce, [e.event], states[k].channel);
      }
    }
  }
}

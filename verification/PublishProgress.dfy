/** Who waits for whom in the publish protocol, and for how long: closeReadings for
    the publishers inside the lock and nobody else, publish for a closer at most. */
module PublishProgress {
  import opened Tallies
  import opened ReadingQueue
  import opened PublishProtocol
  import opened PublishSafety

  /** A callback is never made to wait by the queue or its consumer: outside the
      wait for the read lock it can always move, and there only a closer that has
      asked for the lock and not yet returned it is waited for. */
  lemma PublishNeverWaitsForConsumer(s: State, p: nat, parses: bool)
    requires Inv(s) && InFlight(s, p)
    ensures Enabled(s, Advance(p, parses)) <==> !(s.callbacks[p].phase == Counted && Closing(s))
  {
  }

  /** The closer's own steps and those of callbacks that hold the read lock. */
  predicate Inside(s: State, a: Action) {
    match a
    case CloserStep => true
    case Advance(p, _) =>
      p < |s.callbacks| && HoldsLock(s.callbacks[p])
    case _ => false
  }

  function CloserRemaining(c: Closer): nat {
    match c
    case NotStarted => 6
    case Waiting => 5
    case Holding => 4
    case FlagSet => 3
    case ChannelClosed => 2
    case Unlocked => 0
  }

  /** An upper bound on the inside steps left before the lock is given back. */
  function Remaining(s: State): nat {
    CloserRemaining(s.closer) +
    3 * Number(s.callbacks, AtCheck) + 2 * Number(s.callbacks, AtSend) + Number(s.callbacks, AtUnlock)
  }

  lemma {:induction false} LockHoldersSplit(cs: seq<Callback>)
    ensures Number(cs, HasLock) == Number(cs, AtCheck) + Number(cs, AtSend) + Number(cs, AtUnlock)
  {
    if cs != [] { LockHoldersSplit(cs[..|cs| - 1]); }
  }

  lemma RemainingBound(s: State)
    requires Inv(s) && Closing(s)
    ensures Remaining(s) <= 3 * s.readers + 5
  {
    LockHoldersSplit(s.callbacks);
  }

  lemma AdvanceTowardsClose(s: State, p: nat, parses: bool)
    requires Inv(s) && Closing(s) && Enabled(s, Advance(p, parses))
    ensures var s' := AdvanceCallback(s, p, parses);
            && s'.closer == s.closer
            && Remaining(s') == if HoldsLock(s.callbacks[p]) then RemainingAfter(s, p, parses) else Remaining(s)
  {
    AdvanceNeverPanics(s, p, parses);
    NumbersAfterAdvance(s, p, parses, AtCheck);
    NumbersAfterAdvance(s, p, parses, AtSend);
    NumbersAfterAdvance(s, p, parses, AtUnlock);
  }

  /** A check that finds the queue closed skips the send, hence two steps less. */
  function RemainingAfter(s: State, p: nat, parses: bool): int
    requires p < |s.callbacks|
  {
    Remaining(s) - if s.callbacks[p].phase == Locked && s.closed then 2 else 1
  }

  /** While the closer is at work, an inside step shortens what remains and no
      other step lengthens it: late callbacks and the consumer do not matter. */
  lemma StepTowardsClose(s: State, a: Action)
    requires Inv(s) && Closing(s) && Enabled(s, a)
    ensures Inside(s, a) ==> Remaining(Step(s, a)) < Remaining(s)
    ensures !Inside(s, a) ==> Remaining(Step(s, a)) == Remaining(s)
    ensures Closing(Step(s, a)) || Step(s, a).closer == Unlocked
  {
    match a
    case Arrive(r) =>
      NumberAfterArrival(s.callbacks, Callback(r, Entered), AtCheck);
      NumberAfterArrival(s.callbacks, Callback(r, Entered), AtSend);
      NumberAfterArrival(s.callbacks, Callback(r, Entered), AtUnlock);
    case Advance(p, parses) => AdvanceTowardsClose(s, p, parses);
    case _ =>
  }

  /** Some inside step can always be taken until the closer is done. */
  lemma CloseNeverStuck(s: State) returns (a: Action)
    requires Inv(s) && Closing(s)
    ensures Enabled(s, a) && Inside(s, a)
  {
    if s.closer == Waiting && s.readers > 0 {
      NumberPositive(s.callbacks, HasLock);
      var p :| 0 <= p < |s.callbacks| && Selects(HasLock, s.callbacks[p]);
      a := Advance(p, true);
    } else {
      a := CloserStep;
    }
  }

  function InsideSteps(s: State, actions: seq<Action>): nat
    requires Legal(s, actions)
    decreases actions
  {
    if actions == [] then 0
    else One(Inside(s, actions[0])) + InsideSteps(Step(s, actions[0]), actions[1..])
  }

  ghost predicate ClosesDuring(s: State, actions: seq<Action>)
    requires Legal(s, actions)
    decreases actions
  {
    s.closer == Unlocked || (actions != [] && ClosesDuring(Step(s, actions[0]), actions[1..]))
  }

  /** Once closeReadings has asked for the lock it finishes within three steps for
      each publisher already inside plus four of its own, in every run, however
      many publishers arrive and even if the consumer never moves. */
  lemma {:induction false} CloseCompletes(s: State, actions: seq<Action>)
    requires Inv(s) && Closing(s) && Legal(s, actions)
    requires InsideSteps(s, actions) >= 3 * s.readers + 4
    ensures ClosesDuring(s, actions)
  {
    CloseCompletesWithin(s, actions);
    RemainingBound(s);
  }

  lemma {:induction false} CloseCompletesWithin(s: State, actions: seq<Action>)
    requires Inv(s) && Closing(s) && Legal(s, actions)
    ensures ClosesDuring(s, actions) || InsideSteps(s, actions) + 2 <= Remaining(s)
    decreases actions
  {
    if actions != [] {
      StepTowardsClose(s, actions[0]);
      StepKeeps(s, actions[0]);
      if Step(s, actions[0]).closer != Unlocked {
        CloseCompletesWithin(Step(s, actions[0]), actions[1..]);
      }
    }
  }

  // ------------------------------------------------------ one callback's way

  /** The steps a callback has left at most; one that has not come yet has all. */
  function StepsLeft(s: State, p: nat): nat {
    if p >= |s.callbacks| then 7
    else
      match s.callbacks[p].phase
      case Entered => 7
      case Parsed => 6
      case Counted => 5
      case Locked => 4
      case Checked => 3
      case Decided(_) => 2
      case Released(_) => 1
      case Finished => 0
  }

  predicate OwnStep(a: Action, p: nat) {
    a.Advance? && a.p == p
  }

  function OwnStepsIn(actions: seq<Action>, p: nat): nat {
    if actions == [] then 0 else One(OwnStep(actions[0], p)) + OwnStepsIn(actions[1..], p)
  }

  lemma OwnStepUsesUp(s: State, a: Action, p: nat)
    requires Inv(s) && Enabled(s, a)
    ensures StepsLeft(Step(s, a), p) + One(OwnStep(a, p)) <= StepsLeft(s, p)
  {
    if a.Advance? { AdvanceFollows(s, a.p, a.parses); }
  }

  /** A callback never loops or retries: in every run, whatever happens around it,
      it takes no more of its own steps than it had left, seven in all. */
  lemma {:induction false} CallbackStepsBounded(s: State, actions: seq<Action>, p: nat)
    requires Inv(s) && Legal(s, actions)
    ensures OwnStepsIn(actions, p) + StepsLeft(After(s, actions), p) <= StepsLeft(s, p) <= 7
    decreases actions
  {
    if actions != [] {
      OwnStepUsesUp(s, actions[0], p);
      StepKeeps(s, actions[0]);
      CallbackStepsBounded(Step(s, actions[0]), actions[1..], p);
    }
  }

  /** Steps of callback p, of the closer at work and of callbacks it waits for. */
  predicate Needed(s: State, a: Action, p: nat) {
    OwnStep(a, p) || (Closing(s) && Inside(s, a))
  }

  predicate OnlyNeeded(s: State, actions: seq<Action>, p: nat)
    requires Legal(s, actions)
    decreases actions
  {
    actions == [] || (Needed(s, actions[0], p) && OnlyNeeded(Step(s, actions[0]), actions[1..], p))
  }

  /** What lies before callback p: its own steps and those of a close at work. */
  function Ahead(s: State, p: nat): nat {
    StepsLeft(s, p) + if Closing(s) then Remaining(s) else 0
  }

  lemma NeededGetsAhead(s: State, p: nat) returns (a: Action)
    requires Inv(s) && InFlight(s, p)
    ensures Enabled(s, a) && Needed(s, a, p) && Ahead(Step(s, a), p) < Ahead(s, p)
  {
    PublishNeverWaitsForConsumer(s, p, true);
    if s.callbacks[p].phase == Counted && Closing(s) {
      a := CloseNeverStuck(s);
    } else {
      a := Advance(p, true);
      AdvanceFollows(s, p, true);
    }
    OwnStepUsesUp(s, a, p);
    if Closing(s) { StepTowardsClose(s, a); }
  }

  /** Nobody else is held up either. A callback can always come; the consumer waits
      only for an open queue to have something in it; and the closer only for the
      readers inside. */
  lemma NobodyElseWaits(s: State, r: Reading, ok: bool)
    requires Inv(s)
    ensures Enabled(s, Arrive(r))
    ensures s.consumer.Inserting? ==> Enabled(s, Record(ok))
    ensures s.consumer == Idle && s.channel.buffer != [] ==> Enabled(s, Take)
    ensures s.consumer == Idle && s.channel.buffer == [] && s.channel.closed ==> Enabled(s, EndLoop)
    ensures Enabled(s, CloserStep) <==> s.closer != Unlocked && (s.closer == Waiting ==> s.readers == 0)
  {
  }

  /** From every state a callback under way can be brought to its end by its own
      steps and, if a close is at work, those the close needs: at most seven, and
      three for each publisher inside the lock and five for the closer. Nothing is
      asked of the consumer, of the database behind it or of other callbacks. */
  lemma {:induction false} CallbackCanFinish(s: State, p: nat) returns (actions: seq<Action>)
    requires Inv(s) && InFlight(s, p)
    ensures Legal(s, actions) && OnlyNeeded(s, actions, p) && !InFlight(After(s, actions), p)
    ensures |actions| <= 7 + if Closing(s) then 3 * s.readers + 5 else 0
  {
    actions := FinishWithin(s, p);
    if Closing(s) { RemainingBound(s); }
  }

  lemma {:induction false} FinishWithin(s: State, p: nat) returns (actions: seq<Action>)
    requires Inv(s) && p < |s.callbacks|
    ensures Legal(s, actions) && OnlyNeeded(s, actions, p) && !InFlight(After(s, actions), p)
    ensures |actions| <= Ahead(s, p)
    decreases Ahead(s, p)
  {
    if InFlight(s, p) {
      var a := NeededGetsAhead(s, p);
      StepKeeps(s, a);
      var rest := FinishWithin(Step(s, a), p);
      actions := [a] + rest;
      assert actions[0] == a && actions[1..] == rest;
    } else {
      actions := [];
    }
  }

  lemma Prepend(s: State, a: Action, rest: seq<Action>)
    requires Enabled(s, a) && Legal(Step(s, a), rest)
    ensures Legal(s, [a] + rest) && After(s, [a] + rest) == After(Step(s, a), rest)
  {
    assert ([a] + rest)[1..] == rest;
  }

  /** A callback may come at any time, also after the close, and reach its end; once
      the queue is closed it changes nothing there. */
  lemma LateCallback(s: State, r: Reading) returns (actions: seq<Action>)
    requires Inv(s)
    ensures Legal(s, actions) && actions != [] && actions[0] == Arrive(r)
    ensures !InFlight(After(s, actions), |s.callbacks|)
    ensures s.channel.closed ==> After(s, actions).accepted == s.accepted
  {
    NobodyElseWaits(s, r, true);
    var a := Arrive(r);
    StepKeeps(s, a);
    var rest := FinishWithin(Step(s, a), |s.callbacks|);
    Prepend(s, a, rest);
    actions := [a] + rest;
    if s.channel.closed { ClosedForGood(s, actions); }
  }

  function ConsumerWork(s: State): nat {
    2 * |s.channel.buffer| +
    match s.consumer
    case Idle => 1
    case Inserting(_) => 2
    case Ended => 0
  }

  predicate ConsumerOnly(actions: seq<Action>) {
    forall a | a in actions :: a.Take? || a.Record? || a.EndLoop?
  }

  /** Once the channel is closed the consumer's loop ends by itself, whether its inserts
      succeed or not, and has then been handed everything that was accepted. */
  lemma {:induction false} ConsumerDrains(s: State, ok: bool) returns (actions: seq<Action>)
    requires Inv(s) && s.channel.closed
    ensures Legal(s, actions) && ConsumerOnly(actions) && |actions| <= ConsumerWork(s)
    ensures After(s, actions).consumer == Ended && After(s, actions).handed == s.accepted
    decreases ConsumerWork(s)
  {
    if s.consumer == Ended {
      actions := [];
    } else {
      NobodyElseWaits(s, Reading("", 0, []), ok);
      var a := if s.consumer.Inserting? then Record(ok) else if s.channel.buffer != [] then Take else EndLoop;
      StepKeeps(s, a);
      var rest := ConsumerDrains(Step(s, a), ok);
      Prepend(s, a, rest);
      actions := [a] + rest;
    }
  }
}

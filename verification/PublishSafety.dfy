/** What every interleaving of the publish protocol keeps: mutual exclusion, FIFO
    delivery and a place for every callback and every reading. */
module PublishSafety {
  import opened Tallies
  import opened ReadingQueue
  import opened PublishProtocol

  /** The readers the lock counts are the callbacks that hold it. */
  ghost predicate ReadersCounted(s: State) {
    s.readers == Number(s.callbacks, HasLock)
  }

  /** Mutual exclusion and its consequences for the channel. */
  ghost predicate Guarded(s: State) {
    && !s.panicked
    && ReadersCounted(s)
    && (s.closed <==> s.closer in {FlagSet, ChannelClosed, Unlocked})
    && (s.channel.closed <==> s.closer in {ChannelClosed, Unlocked})
    && s.closes == One(s.channel.closed)
    && (s.closer in {Holding, FlagSet, ChannelClosed} ==> s.readers == 0)
    && (forall p | 0 <= p < |s.callbacks| && SawOpen(s.callbacks[p]) :: !s.closed)
  }

  /** What the consumer got, then what is waiting, is what was accepted. */
  ghost predicate InOrder(s: State) {
    && |s.channel.buffer| <= s.channel.capacity
    && s.handed + s.channel.buffer == s.accepted
    && (s.consumer == Ended ==> s.channel.closed && s.channel.buffer == [])
  }

  /** Each callback of a battery failed to parse, was counted, or will be. */
  ghost predicate CallbacksAccounted(s: State, b: string) {
    Count(s.counts.callbacks, b) ==
    Count(s.counts.parseFailures, b) + Count(s.counts.notifications, b) + Number(s.callbacks, Uncounted(b))
  }

  ghost predicate NotificationsAccounted(s: State, b: string) {
    Count(s.counts.notifications, b) ==
    Number(s.callbacks, Unoffered(b)) + Of(s.accepted, b) + Count(s.counts.full, b) + Count(s.counts.refused, b)
  }

  ghost predicate DropsAccounted(s: State, b: string) {
    Count(s.counts.full, b) == Count(s.counts.dropped, b) + Number(s.callbacks, Unrecorded(b))
  }

  ghost predicate WritesAccounted(s: State, b: string) {
    Of(s.handed, b) == Count(s.counts.inserts, b) + Count(s.counts.insertErrors, b) + Writing(s, b)
  }

  ghost predicate Balanced(s: State, b: string) {
    CallbacksAccounted(s, b) && NotificationsAccounted(s, b) && DropsAccounted(s, b) && WritesAccounted(s, b)
  }

  function Writing(s: State, b: string): nat {
    One(s.consumer.Inserting? && s.consumer.reading.battery == b)
  }

  ghost predicate Inv(s: State) {
    Guarded(s) && InOrder(s) && forall b :: Balanced(s, b)
  }

  lemma InitHolds(capacity: nat)
    ensures Inv(Init(capacity))
  {
  }

  lemma NumbersAfterAdvance(s: State, p: nat, parses: bool, k: Kind)
    requires InFlight(s, p)
    ensures Number(AdvanceCallback(s, p, parses).callbacks, k) + One(Selects(k, s.callbacks[p])) ==
            Number(s.callbacks, k) + One(Selects(k, AdvanceCallback(s, p, parses).callbacks[p]))
  {
    NumberAfterMove(s.callbacks, p, AdvanceCallback(s, p, parses).callbacks[p], k);
  }

  /** A callback that holds the read lock is counted among the readers. */
  lemma HolderIsReader(s: State, p: nat)
    requires ReadersCounted(s) && p < |s.callbacks| && HoldsLock(s.callbacks[p])
    ensures s.readers > 0
  {
    NumberPositive(s.callbacks, HasLock);
    assert Selects(HasLock, s.callbacks[p]);
  }

  lemma AdvanceKeepsReaders(s: State, p: nat, parses: bool)
    requires Guarded(s) && Enabled(s, Advance(p, parses))
    ensures ReadersCounted(AdvanceCallback(s, p, parses))
    ensures s.readers == 0 && Closing(s) ==> AdvanceCallback(s, p, parses).readers == 0
  {
    if HoldsLock(s.callbacks[p]) {
      HolderIsReader(s, p);
    }
    NumbersAfterAdvance(s, p, parses, HasLock);
  }

  /** A publisher only sends when it saw the queue open, and it still is. */
  lemma AdvanceNeverPanics(s: State, p: nat, parses: bool)
    requires Guarded(s) && Enabled(s, Advance(p, parses))
    ensures !AdvanceCallback(s, p, parses).panicked
  {
    if HoldsLock(s.callbacks[p]) {
      HolderIsReader(s, p);
    }
    assert s.callbacks[p].phase == Checked ==> SawOpen(s.callbacks[p]);
  }

  lemma AdvanceKeepsGuarded(s: State, p: nat, parses: bool)
    requires Guarded(s) && Enabled(s, Advance(p, parses))
    ensures Guarded(AdvanceCallback(s, p, parses))
  {
    var s' := AdvanceCallback(s, p, parses);
    AdvanceKeepsReaders(s, p, parses);
    AdvanceNeverPanics(s, p, parses);
    forall q | 0 <= q < |s'.callbacks| && SawOpen(s'.callbacks[q]) ensures !s'.closed {
      assert SawOpen(s.callbacks[q]) || s.callbacks[q].phase == Locked;
    }
  }

  lemma AdvanceKeepsOrder(s: State, p: nat, parses: bool)
    requires Guarded(s) && InOrder(s) && Enabled(s, Advance(p, parses))
    ensures InOrder(AdvanceCallback(s, p, parses))
  {
  }

  lemma AdvanceAccountsCallbacks(s: State, p: nat, parses: bool, b: string)
    requires Guarded(s) && CallbacksAccounted(s, b) && Enabled(s, Advance(p, parses))
    ensures CallbacksAccounted(AdvanceCallback(s, p, parses), b)
  {
    AdvanceNeverPanics(s, p, parses);
    NumbersAfterAdvance(s, p, parses, Uncounted(b));
    var before, after, id := s.callbacks[p].phase, NextPhase(s, p, parses), s.callbacks[p].reading.battery;
    BumpIfCounts(s.counts.parseFailures, id, before == Entered && after == Finished, b);
    BumpIfCounts(s.counts.notifications, id, before == Parsed, b);
  }

  /** The moves a callback can make. */
  predicate Follows(before: Phase, after: Phase) {
    match before
    case Entered => after == Parsed || after == Finished
    case Parsed => after == Counted
    case Counted => after == Locked
    case Locked => after == Checked || after == Decided(DroppedShuttingDown)
    case Checked => after == Decided(Published) || after == Decided(DroppedQueueFull)
    case Decided(result) => after == Released(result)
    case Released(_) => after == Finished
    case Finished => false
  }

  lemma AdvanceFollows(s: State, p: nat, parses: bool)
    requires Guarded(s) && Enabled(s, Advance(p, parses))
    ensures Follows(s.callbacks[p].phase, NextPhase(s, p, parses))
  {
    AdvanceNeverPanics(s, p, parses);
  }

  /** A counted notification stays unoffered until its result is decided. */
  lemma UnofferedMoves(r: Reading, before: Phase, after: Phase, b: string)
    requires Follows(before, after)
    ensures var own := r.battery == b;
            One(Selects(Unoffered(b), Callback(r, before))) + One(before == Parsed && own) ==
            One(Selects(Unoffered(b), Callback(r, after))) +
            One(after == Decided(DroppedShuttingDown) && own) + One(after == Decided(DroppedQueueFull) && own) +
            One(after == Decided(Published) && own)
  {
  }

  lemma AcceptedMoves(s: State, p: nat, parses: bool, b: string)
    requires Enabled(s, Advance(p, parses))
    ensures Of(AdvanceCallback(s, p, parses).accepted, b) ==
            Of(s.accepted, b) +
            One(NextPhase(s, p, parses) == Decided(Published) && s.callbacks[p].reading.battery == b)
  {
    OfAppend(s.accepted, s.callbacks[p].reading, b);
  }

  lemma AdvanceAccountsNotifications(s: State, p: nat, parses: bool, b: string)
    requires Guarded(s) && NotificationsAccounted(s, b) && Enabled(s, Advance(p, parses))
    ensures NotificationsAccounted(AdvanceCallback(s, p, parses), b)
  {
    var before, after, r := s.callbacks[p].phase, NextPhase(s, p, parses), s.callbacks[p].reading;
    AdvanceFollows(s, p, parses);
    UnofferedMoves(r, before, after, b);
    NumbersAfterAdvance(s, p, parses, Unoffered(b));
    AcceptedMoves(s, p, parses, b);
    BumpIfCounts(s.counts.notifications, r.battery, before == Parsed, b);
    BumpIfCounts(s.counts.refused, r.battery, after == Decided(DroppedShuttingDown), b);
    BumpIfCounts(s.counts.full, r.battery, after == Decided(DroppedQueueFull), b);
  }

  lemma AdvanceAccountsDrops(s: State, p: nat, parses: bool, b: string)
    requires Guarded(s) && DropsAccounted(s, b) && Enabled(s, Advance(p, parses))
    ensures DropsAccounted(AdvanceCallback(s, p, parses), b)
  {
    AdvanceNeverPanics(s, p, parses);
    NumbersAfterAdvance(s, p, parses, Unrecorded(b));
    var before, after, id := s.callbacks[p].phase, NextPhase(s, p, parses), s.callbacks[p].reading.battery;
    BumpIfCounts(s.counts.full, id, after == Decided(DroppedQueueFull), b);
    BumpIfCounts(s.counts.dropped, id, before == Released(DroppedQueueFull), b);
  }

  lemma AdvanceKeepsBalance(s: State, p: nat, parses: bool, b: string)
    requires Guarded(s) && Balanced(s, b) && Enabled(s, Advance(p, parses))
    ensures Balanced(AdvanceCallback(s, p, parses), b)
  {
    AdvanceAccountsCallbacks(s, p, parses, b);
    AdvanceAccountsNotifications(s, p, parses, b);
    AdvanceAccountsDrops(s, p, parses, b);
  }

  lemma ArriveKeepsBalance(s: State, r: Reading, b: string)
    requires Balanced(s, b) && Enabled(s, Arrive(r))
    ensures Balanced(Step(s, Arrive(r)), b)
  {
    NumberAfterArrival(s.callbacks, Callback(r, Entered), Uncounted(b));
    NumberAfterArrival(s.callbacks, Callback(r, Entered), Unoffered(b));
    NumberAfterArrival(s.callbacks, Callback(r, Entered), Unrecorded(b));
  }

  lemma ArriveKeeps(s: State, r: Reading)
    requires Inv(s) && Enabled(s, Arrive(r))
    ensures Inv(Step(s, Arrive(r)))
  {
    var s' := Step(s, Arrive(r));
    var c := Callback(r, Entered);
    NumberAfterArrival(s.callbacks, c, HasLock);
    forall b ensures Balanced(s', b) {
      assert Balanced(s, b);
      ArriveKeepsBalance(s, r, b);
    }
  }

  lemma CloserKeeps(s: State)
    requires Inv(s) && Enabled(s, CloserStep)
    ensures Inv(Step(s, CloserStep))
  {
    var s' := Step(s, CloserStep);
    forall p | 0 <= p < |s'.callbacks| && SawOpen(s'.callbacks[p]) ensures !s'.closed {
      HolderIsReader(s, p);
    }
    forall b ensures Balanced(s', b) {
      assert Balanced(s, b);
    }
  }

  lemma TakeKeeps(s: State)
    requires Inv(s) && Enabled(s, Take)
    ensures Inv(Step(s, Take))
  {
    var s' := Step(s, Take);
    assert s.channel.buffer == [s.channel.buffer[0]] + s.channel.buffer[1..];
    assert s'.handed + s'.channel.buffer == s.handed + s.channel.buffer;
    forall b ensures Balanced(s', b) {
      assert Balanced(s, b);
      OfAppend(s.handed, s.channel.buffer[0], b);
    }
  }

  lemma RecordKeeps(s: State, ok: bool)
    requires Inv(s) && Enabled(s, Record(ok))
    ensures Inv(Step(s, Record(ok)))
  {
    forall b ensures Balanced(Step(s, Record(ok)), b) {
      assert Balanced(s, b);
    }
  }

  lemma EndLoopKeeps(s: State)
    requires Inv(s) && Enabled(s, EndLoop)
    ensures Inv(Step(s, EndLoop))
  {
    forall b ensures Balanced(Step(s, EndLoop), b) {
      assert Balanced(s, b);
    }
  }

  lemma StepKeeps(s: State, a: Action)
    requires Inv(s) && Enabled(s, a)
    ensures Inv(Step(s, a))
  {
    match a
    case Arrive(r) => ArriveKeeps(s, r);
    case Advance(p, parses) =>
      AdvanceKeepsGuarded(s, p, parses);
      AdvanceKeepsOrder(s, p, parses);
      forall b ensures Balanced(AdvanceCallback(s, p, parses), b) {
        AdvanceKeepsBalance(s, p, parses, b);
      }
    case CloserStep => CloserKeeps(s);
    case Take => TakeKeeps(s);
    case Record(ok) => RecordKeeps(s, ok);
    case EndLoop => EndLoopKeeps(s);
  }

  lemma {:induction false} RunKeeps(s: State, actions: seq<Action>)
    requires Inv(s) && Legal(s, actions)
    ensures Inv(After(s, actions))
    decreases actions
  {
    if actions != [] {
      StepKeeps(s, actions[0]);
      RunKeeps(Step(s, actions[0]), actions[1..]);
    }
  }

  // ---------------------------------------------------------------- theorems

  ghost predicate Reachable(s: State) {
    exists capacity: nat, actions | Legal(Init(capacity), actions) :: s == After(Init(capacity), actions)
  }

  lemma ReachableHolds(s: State)
    requires Reachable(s)
    ensures Inv(s)
  {
    var capacity: nat, actions :| Legal(Init(capacity), actions) && s == After(Init(capacity), actions);
    InitHolds(capacity);
    RunKeeps(Init(capacity), actions);
  }

  /** No send on a closed channel and no second close (either would panic), the
      queue stays within its bound, and a publisher that saw the queue open still
      does so when it gives the lock back. */
  lemma NoSendAfterClose(s: State)
    requires Reachable(s)
    ensures !s.panicked && s.closes <= 1 && |s.channel.buffer| <= s.channel.capacity
    ensures forall p | 0 <= p < |s.callbacks| && SawOpen(s.callbacks[p]) :: !s.closed && !s.channel.closed
    ensures forall a | Enabled(s, a) :: !Step(s, a).panicked
  {
    ReachableHolds(s);
    forall a | Enabled(s, a) ensures !Step(s, a).panicked {
      StepKeeps(s, a);
    }
  }

  /** For every battery, in every reachable state: each callback failed to parse,
      was counted, or is on its way to being counted; each counted one is in
      flight, accepted, dropped or refused; each accepted reading was inserted,
      failed to insert, is being written, or is still queued. */
  lemma Conservation(s: State, b: string)
    requires Reachable(s)
    ensures Count(s.counts.callbacks, b) ==
            Count(s.counts.parseFailures, b) + Count(s.counts.notifications, b) + Number(s.callbacks, Uncounted(b))
    ensures Count(s.counts.notifications, b) ==
            Number(s.callbacks, Unoffered(b)) + Of(s.accepted, b) +
            Count(s.counts.dropped, b) + Number(s.callbacks, Unrecorded(b)) + Count(s.counts.refused, b)
    ensures Of(s.accepted, b) ==
            Count(s.counts.inserts, b) + Count(s.counts.insertErrors, b) + Writing(s, b) + Of(s.channel.buffer, b)
  {
    ReachableHolds(s);
    assert Balanced(s, b);
    OfConcat(s.handed, s.channel.buffer, b);
  }

  /** The consumer is handed the accepted readings in order, and when its loop
      ends it has been handed all of them. */
  lemma DeliveredInOrder(s: State)
    requires Reachable(s)
    ensures s.handed <= s.accepted
    ensures s.consumer == Ended ==> s.handed == s.accepted
  {
    ReachableHolds(s);
  }

  /** Nothing is accepted once the channel is closed, so a finished delivery
      stays complete whatever late callbacks do. */
  lemma {:induction false} ClosedForGood(s: State, actions: seq<Action>)
    requires Inv(s) && s.channel.closed && Legal(s, actions)
    ensures After(s, actions).accepted == s.accepted && After(s, actions).channel.closed
    decreases actions
  {
    if actions != [] {
      StepKeeps(s, actions[0]);
      ClosedForGood(Step(s, actions[0]), actions[1..]);
    }
  }

  // --------------------------------------------------- what each counter says

  /** The things that are counted. */
  datatype What =
    | Arrived
    | Unparsed
    | Notified
    | FoundFull
    | FoundClosed
    | DropRecorded
    | Inserted
    | InsertFailed

  function CounterOf(c: Counts, w: What): Tally {
    match w
    case Arrived => c.callbacks
    case Unparsed => c.parseFailures
    case Notified => c.notifications
    case FoundFull => c.full
    case FoundClosed => c.refused
    case DropRecorded => c.dropped
    case Inserted => c.inserts
    case InsertFailed => c.insertErrors
  }

  /** An action does such a thing for battery b: told from the action, the state of
      its callback, the queue and what the consumer is writing, not from counters. */
  predicate Does(s: State, a: Action, w: What, b: string) {
    match a
    case Arrive(r) => w == Arrived && r.battery == b
    case Record(ok) =>
      && s.consumer.Inserting? && s.consumer.reading.battery == b
      && (w == if ok then Inserted else InsertFailed)
    case Advance(p, parses) =>
      p < |s.callbacks| && s.callbacks[p].reading.battery == b && CallbackDoes(s, s.callbacks[p].phase, parses, w)
    case _ => false
  }

  predicate CallbackDoes(s: State, phase: Phase, parses: bool, w: What) {
    match phase
    case Entered => w == Unparsed && !parses
    case Parsed => w == Notified
    case Locked => w == FoundClosed && s.closed
    case Checked => w == FoundFull && |s.channel.buffer| == s.channel.capacity
    case Released(result) => w == DropRecorded && result == DroppedQueueFull
    case _ => false
  }

  function Times(s: State, actions: seq<Action>, w: What, b: string): nat
    requires Legal(s, actions)
    decreases actions
  {
    if actions == [] then 0 else One(Does(s, actions[0], w, b)) + Times(Step(s, actions[0]), actions[1..], w, b)
  }

  /** The same of the phases before and after. */
  predicate MoveDoes(before: Phase, after: Phase, w: What) {
    match w
    case Unparsed => before == Entered && after == Finished
    case Notified => before == Parsed
    case FoundFull => after == Decided(DroppedQueueFull)
    case FoundClosed => after == Decided(DroppedShuttingDown)
    case DropRecorded => before == Released(DroppedQueueFull)
    case _ => false
  }

  lemma MoveCounts(c: Counts, id: string, before: Phase, after: Phase, w: What, b: string)
    ensures Count(CounterOf(TallyMove(c, before, after, id), w), b) ==
            Count(CounterOf(c, w), b) + One(MoveDoes(before, after, w) && id == b)
  {
  }

  lemma AdvanceDoes(s: State, p: nat, parses: bool, w: What)
    requires Guarded(s) && InOrder(s) && Enabled(s, Advance(p, parses))
    ensures CallbackDoes(s, s.callbacks[p].phase, parses, w) <==>
            MoveDoes(s.callbacks[p].phase, NextPhase(s, p, parses), w)
  {
    AdvanceFollows(s, p, parses);
  }

  lemma AdvanceCounts(s: State, p: nat, parses: bool, w: What, b: string)
    requires Inv(s) && Enabled(s, Advance(p, parses))
    ensures Count(CounterOf(AdvanceCallback(s, p, parses).counts, w), b) ==
            Count(CounterOf(s.counts, w), b) + One(Does(s, Advance(p, parses), w, b))
  {
    AdvanceDoes(s, p, parses, w);
    MoveCounts(s.counts, s.callbacks[p].reading.battery, s.callbacks[p].phase, NextPhase(s, p, parses), w, b);
  }

  lemma StepCounts(s: State, a: Action, w: What, b: string)
    requires Inv(s) && Enabled(s, a)
    ensures Count(CounterOf(Step(s, a).counts, w), b) == Count(CounterOf(s.counts, w), b) + One(Does(s, a, w, b))
  {
    if a.Advance? { AdvanceCounts(s, a.p, a.parses, w, b); }
  }

  /** Each counter tells how often its own thing happened, for every battery and in
      every run. */
  lemma {:induction false} CountersTell(s: State, actions: seq<Action>, w: What, b: string)
    requires Inv(s) && Legal(s, actions)
    ensures Count(CounterOf(After(s, actions).counts, w), b) ==
            Count(CounterOf(s.counts, w), b) + Times(s, actions, w, b)
    decreases actions
  {
    if actions != [] {
      StepCounts(s, actions[0], w, b);
      StepKeeps(s, actions[0]);
      CountersTell(Step(s, actions[0]), actions[1..], w, b);
    }
  }
}

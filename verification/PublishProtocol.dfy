/**
 The publish, close and drain protocol of internal/litime/manager.go and the
 consumer loop of cmd/litime-timescaledb-inserter/main.go, as a step relation.

 Any number of notification callbacks may be under way at once, at any point of
 handleNotification and publish; one closer runs closeReadings; one consumer
 ranges over the channel. Every lock operation, check, channel operation and
 counter update is a step of its own, and any enabled step may come next. The
 lock is Go's sync.RWMutex: a writer that waits holds back new readers, and
 enters when the readers inside have left.
 */
module PublishProtocol {
  import opened Tallies
  import opened ReadingQueue

  /** Where a callback is. The result is known from the moment it is decided, and
      the read lock is held from Locked to Decided. */
  datatype Phase =
    | Entered
    | Parsed
    | Counted
    | Locked
    | Checked
    | Decided(result: PublishResult)
    | Released(result: PublishResult)
    | Finished

  datatype Callback = Callback(reading: Reading, phase: Phase)

  datatype Closer = NotStarted | Waiting | Holding | FlagSet | ChannelClosed | Unlocked

  datatype Consumer = Idle | Inserting(reading: Reading) | Ended

  /** Per-battery counters. Four are metrics of the service; callbacks and refused
      are only logged or not kept there, and full counts decisions to drop. */
  datatype Counts = Counts(callbacks: Tally, parseFailures: Tally, notifications: Tally, full: Tally,
                           refused: Tally, dropped: Tally, inserts: Tally, insertErrors: Tally)

  datatype State = State(
    callbacks: seq<Callback>,
    readers: nat,
    closer: Closer,
    closed: bool,
    channel: Queue,
    closes: nat,
    panicked: bool,
    accepted: seq<Reading>,
    handed: seq<Reading>,
    consumer: Consumer,
    counts: Counts)

  datatype Action =
    | Arrive(r: Reading)
    | Advance(p: nat, parses: bool)
    | CloserStep
    | Take
    | Record(ok: bool)
    | EndLoop

  function Init(capacity: nat): State {
    State([], 0, NotStarted, false, Queue(capacity, false, []), 0, false, [], [], Idle,
          Counts(map[], map[], map[], map[], map[], map[], map[], map[]))
  }

  /** The closer is somewhere between asking for the lock and giving it back. */
  predicate Closing(s: State) {
    s.closer in {Waiting, Holding, FlagSet, ChannelClosed}
  }

  predicate InFlight(s: State, p: nat) {
    p < |s.callbacks| && s.callbacks[p].phase != Finished
  }

  predicate Enabled(s: State, a: Action) {
    !s.panicked &&
    match a
    case Arrive(_) => true
    case Advance(p, _) => InFlight(s, p) && (s.callbacks[p].phase == Counted ==> !Closing(s))
    case CloserStep => s.closer != Unlocked && (s.closer == Waiting ==> s.readers == 0)
    case Take => s.consumer == Idle && s.channel.buffer != []
    case Record(_) => s.consumer.Inserting?
    case EndLoop => s.consumer == Idle && s.channel.buffer == [] && s.channel.closed
  }

  /** Where a callback goes next. A parse failure, or the end, finishes it. */
  function NextPhase(s: State, p: nat, parses: bool): Phase
    requires p < |s.callbacks|
  {
    match s.callbacks[p].phase
    case Entered => if parses then Parsed else Finished
    case Parsed => Counted
    case Counted => Locked
    case Locked => if s.closed then Decided(DroppedShuttingDown) else Checked
    case Checked =>
      if s.channel.closed then Checked
      else if |s.channel.buffer| < s.channel.capacity then Decided(Published)
      else Decided(DroppedQueueFull)
    case Decided(result) => Released(result)
    case Released(_) => Finished
    case Finished => Finished
  }

  /** The counters a callback of battery b moves on its way from one phase to the
      next. */
  function TallyMove(c: Counts, before: Phase, after: Phase, b: string): Counts {
    c.(parseFailures := BumpIf(c.parseFailures, b, before == Entered && after == Finished),
       notifications := BumpIf(c.notifications, b, before == Parsed),
       refused := BumpIf(c.refused, b, after == Decided(DroppedShuttingDown)),
       full := BumpIf(c.full, b, after == Decided(DroppedQueueFull)),
       dropped := BumpIf(c.dropped, b, before == Released(DroppedQueueFull)))
  }

  function AdvanceCallback(s: State, p: nat, parses: bool): State
    requires InFlight(s, p)
  {
    var c := s.callbacks[p];
    var next := NextPhase(s, p, parses);
    var sent := c.phase == Checked && next == Decided(Published);
    s.(callbacks := s.callbacks[p := Callback(c.reading, next)],
       readers := if c.phase == Counted then s.readers + 1
                  else if c.phase.Decided? && s.readers > 0 then s.readers - 1
                  else s.readers,
       channel := if sent then s.channel.(buffer := s.channel.buffer + [c.reading]) else s.channel,
       accepted := if sent then s.accepted + [c.reading] else s.accepted,
       panicked := c.phase == Checked && s.channel.closed,
       counts := TallyMove(s.counts, c.phase, next, c.reading.battery))
  }

  function AdvanceCloser(s: State): State {
    match s.closer
    case NotStarted => s.(closer := Waiting)
    case Waiting => s.(closer := Holding)
    case Holding => s.(closer := FlagSet, closed := true)
    case FlagSet =>
      if s.channel.closed then s.(panicked := true)
      else s.(closer := ChannelClosed, channel := s.channel.(closed := true), closes := s.closes + 1)
    case ChannelClosed => s.(closer := Unlocked)
    case Unlocked => s
  }

  function Step(s: State, a: Action): State
    requires Enabled(s, a)
  {
    match a
    case Arrive(r) =>
      s.(callbacks := s.callbacks + [Callback(r, Entered)],
         counts := s.counts.(callbacks := Bump(s.counts.callbacks, r.battery)))
    case Advance(p, parses) => AdvanceCallback(s, p, parses)
    case CloserStep => AdvanceCloser(s)
    case Take =>
      var r := s.channel.buffer[0];
      s.(channel := s.channel.(buffer := s.channel.buffer[1..]), handed := s.handed + [r], consumer := Inserting(r))
    case Record(ok) =>
      var b := s.consumer.reading.battery;
      s.(consumer := Idle,
         counts := if ok then s.counts.(inserts := Bump(s.counts.inserts, b))
                   else s.counts.(insertErrors := Bump(s.counts.insertErrors, b)))
    case EndLoop => s.(consumer := Ended)
  }

  /** A finite run: each action is enabled when its turn comes. */
  predicate Legal(s: State, actions: seq<Action>)
    decreases actions
  {
    actions == [] || (Enabled(s, actions[0]) && Legal(Step(s, actions[0]), actions[1..]))
  }

  function After(s: State, actions: seq<Action>): State
    requires Legal(s, actions)
    decreases actions
  {
    if actions == [] then s else After(Step(s, actions[0]), actions[1..])
  }

  /** Past the check that found the queue open, and still holding the lock. */
  predicate SawOpen(c: Callback) {
    c.phase in {Checked, Decided(Published), Decided(DroppedQueueFull)}
  }

  predicate HoldsLock(c: Callback) {
    c.phase == Locked || c.phase == Checked || c.phase.Decided?
  }

  // ---------------------------------------------------------------- counting

  /** The groups of callbacks the laws below count. */
  datatype Kind =
    | Uncounted(b: string) | Unoffered(b: string) | Unrecorded(b: string)
    | HasLock | AtCheck | AtSend | AtUnlock

  predicate Selects(k: Kind, c: Callback) {
    match k
    case Uncounted(b) => c.reading.battery == b && c.phase in {Entered, Parsed}
    case Unoffered(b) => c.reading.battery == b && c.phase in {Counted, Locked, Checked}
    case Unrecorded(b) => c.reading.battery == b && c.phase in {Decided(DroppedQueueFull), Released(DroppedQueueFull)}
    case HasLock => HoldsLock(c)
    case AtCheck => c.phase == Locked
    case AtSend => c.phase == Checked
    case AtUnlock => c.phase.Decided?
  }

  function Number(cs: seq<Callback>, k: Kind): nat {
    if cs == [] then 0 else Number(cs[..|cs| - 1], k) + One(Selects(k, cs[|cs| - 1]))
  }

  lemma NumberAfterArrival(cs: seq<Callback>, c: Callback, k: Kind)
    ensures Number(cs + [c], k) == Number(cs, k) + One(Selects(k, c))
  {
    assert (cs + [c])[..|cs|] == cs;
  }

  lemma {:induction false} NumberAfterMove(cs: seq<Callback>, p: nat, c: Callback, k: Kind)
    requires p < |cs|
    ensures Number(cs[p := c], k) + One(Selects(k, cs[p])) == Number(cs, k) + One(Selects(k, c))
  {
    var n := |cs| - 1;
    if p < n {
      NumberAfterMove(cs[..n], p, c, k);
      assert cs[p := c][..n] == cs[..n][p := c];
    } else {
      assert cs[p := c][..n] == cs[..n];
    }
  }

  lemma {:induction false} NumberPositive(cs: seq<Callback>, k: Kind)
    ensures Number(cs, k) > 0 <==> exists p | 0 <= p < |cs| :: Selects(k, cs[p])
  {
    if cs != [] {
      NumberPositive(cs[..|cs| - 1], k);
      if Number(cs[..|cs| - 1], k) > 0 {
        var p :| 0 <= p < |cs| - 1 && Selects(k, cs[..|cs| - 1][p]);
        assert Selects(k, cs[p]);
      }
    }
  }

  /** The readings of one battery in a sequence. */
  function Of(rs: seq<Reading>, b: string): nat {
    if rs == [] then 0 else Of(rs[..|rs| - 1], b) + One(rs[|rs| - 1].battery == b)
  }

  lemma OfAppend(rs: seq<Reading>, r: Reading, b: string)
    ensures Of(rs + [r], b) == Of(rs, b) + One(r.battery == b)
  {
    assert (rs + [r])[..|rs|] == rs;
  }

  lemma {:induction false} OfConcat(xs: seq<Reading>, ys: seq<Reading>, b: string)
    ensures Of(xs + ys, b) == Of(xs, b) + Of(ys, b)
  {
    if ys == [] {
      assert xs + ys == xs;
    } else {
      assert xs + ys == (xs + ys[..|ys| - 1]) + [ys[|ys| - 1]];
      OfAppend(xs + ys[..|ys| - 1], ys[|ys| - 1], b);
      OfConcat(xs, ys[..|ys| - 1], b);
    }
  }
}

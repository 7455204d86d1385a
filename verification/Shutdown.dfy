/**
 The process as a whole (cmd/litime-timescaledb-inserter/main.go, startVictron in
 victron.go beside it, and Manager.Run): main, the manager with its supervisors,
 the Victron collector and its drainer, two queues and three one-slot channels.
 A publish is one atomic step here; module PublishProtocol shows that this is how
 the locking code behaves. Library calls return, but when is not fixed: any
 enabled step may be next.
 */
module Shutdown {
  import opened Prelude
  import opened Tallies
  import opened ReadingQueue
  import opened Collector

  /** A bounded queue with everything it ever accepted and handed out. */
  datatype Channel<T> = Channel(capacity: nat, closed: bool, buffer: seq<T>, accepted: seq<T>, handed: seq<T>)

  function Opened<T>(capacity: nat): Channel<T> {
    Channel(capacity, false, [], [], [])
  }

  function Put<T>(c: Channel<T>, x: T): Channel<T> {
    c.(buffer := c.buffer + [x], accepted := c.accepted + [x])
  }

  function Get<T>(c: Channel<T>): Channel<T>
    requires c.buffer != []
  {
    c.(buffer := c.buffer[1..], handed := c.handed + [c.buffer[0]])
  }

  predicate Sound<T(==)>(c: Channel<T>) {
    |c.buffer| <= c.capacity && c.handed + c.buffer == c.accepted
  }

  predicate Drained<T(==)>(c: Channel<T>) {
    c.closed && c.buffer == [] && c.handed == c.accepted
  }

  /** A channel of one slot that carries how something ended: whether it failed. */
  datatype Slot = Slot(content: Option<bool>, sends: nat, closed: bool)

  const EMPTY: Slot := Slot(None, 0, false)

  function Send(slot: Slot, failed: bool): Slot {
    Slot(Some(failed), slot.sends + 1, slot.closed)
  }

  datatype ManagerAt =
    | Resolving
    | Supervising(running: nat)
    | ManagerClosing(failed: bool)
    | Reporting(failed: bool)
    | ManagerStopped(failed: bool)

  datatype Litime = Litime(at: ManagerAt, queue: Channel<Reading>, done: Slot)

  datatype CollectorAt = NoCollector | Scanning | CollectorClosing | CollectorReporting | CollectorStopped

  datatype DrainerAt =
    | NoDrainer
    | Draining
    | AwaitingCollector
    | Forwarding(failed: bool)
    | ClosingDone
    | DrainerStopped

  datatype Victron = Victron(collector: CollectorAt, drainer: DrainerAt, queue: Channel<VictronReading>,
                             collectorDone: Slot, done: Slot)

  datatype Failure = StartFailure | ManagerFailure | VictronFailure

  datatype MainAt = Starting | Consuming | AwaitingManager | AwaitingVictron | Complete | Exited(why: Failure)

  datatype Process = Process(batteries: nat, cancelled: bool, main: MainAt, litime: Litime, victron: Victron)

  datatype Action =
    | Cancel
    | PublishReading(r: Reading)
    | PublishVictron(v: VictronReading)
    | StartWithoutVictron
    | StartVictron
    | StartFails
    | ResolveOk
    | ResolveFails
    | SupervisorReturns
    | AllReturned
    | CloseReadings
    | ReportManager
    | StopScanning
    | CloseVictron
    | ReportCollector
    | TakeVictron
    | EndVictronDrain
    | TakeCollectorDone
    | Forward
    | CloseDone
    | TakeReading
    | EndConsuming
    | TakeManagerDone
    | TakeVictronDone

  function Init(batteries: nat, litimeCapacity: nat, victronCapacity: nat): Process {
    Process(batteries, false, Starting, Litime(Resolving, Opened(litimeCapacity), EMPTY),
            Victron(NoCollector, NoDrainer, Opened(victronCapacity), EMPTY, EMPTY))
  }

  predicate Over(p: Process) {
    p.main == Complete || p.main.Exited?
  }

  predicate Enabled(p: Process, a: Action) {
    var l, v := p.litime, p.victron;
    !Over(p) &&
    match a
    case Cancel => !p.cancelled
    case PublishReading(_) => !l.queue.closed && |l.queue.buffer| < l.queue.capacity
    case PublishVictron(_) => v.collector == Scanning && !v.queue.closed && |v.queue.buffer| < v.queue.capacity
    case StartWithoutVictron => p.main == Starting
    case StartVictron => p.main == Starting
    case StartFails => p.main == Starting
    case ResolveOk => l.at == Resolving
    case ResolveFails => l.at == Resolving
    case SupervisorReturns => p.cancelled && l.at.Supervising? && l.at.running > 0
    case AllReturned => l.at == Supervising(0)
    case CloseReadings => l.at.ManagerClosing?
    case ReportManager => l.at.Reporting? && l.done.content.None?
    case StopScanning => p.cancelled && v.collector == Scanning
    case CloseVictron => v.collector == CollectorClosing
    case ReportCollector => v.collector == CollectorReporting && v.collectorDone.content.None?
    case TakeVictron => v.drainer == Draining && v.queue.buffer != []
    case EndVictronDrain => v.drainer == Draining && v.queue.closed && v.queue.buffer == []
    case TakeCollectorDone => v.drainer == AwaitingCollector && v.collectorDone.content.Some?
    case Forward => v.drainer.Forwarding? && v.done.content.None?
    case CloseDone => v.drainer == ClosingDone
    case TakeReading => p.main == Consuming && l.queue.buffer != []
    case EndConsuming => p.main == Consuming && l.queue.closed && l.queue.buffer == []
    case TakeManagerDone => p.main == AwaitingManager && l.done.content.Some?
    case TakeVictronDone => p.main == AwaitingVictron && (v.done.content.Some? || v.done.closed)
  }

  /** The manager's part of a step; supervisors and callbacks belong to it. */
  function StepLitime(l: Litime, batteries: nat, a: Action): Litime {
    match a
    case PublishReading(r) => l.(queue := Put(l.queue, r))
    case ResolveOk => l.(at := Supervising(batteries))
    case ResolveFails => l.(at := ManagerClosing(true))
    case SupervisorReturns =>
      if l.at.Supervising? && l.at.running > 0 then l.(at := Supervising(l.at.running - 1)) else l
    case AllReturned => l.(at := ManagerClosing(false))
    case CloseReadings =>
      if l.at.ManagerClosing? then l.(at := Reporting(l.at.failed), queue := l.queue.(closed := true)) else l
    case ReportManager =>
      if l.at.Reporting? then l.(at := ManagerStopped(l.at.failed), done := Send(l.done, l.at.failed)) else l
    case TakeReading => if l.queue.buffer != [] then l.(queue := Get(l.queue)) else l
    case TakeManagerDone => l.(done := l.done.(content := None))
    case _ => l
  }

  /** The Victron goroutines' part of a step. The collector's Run returns no error. */
  function StepVictron(v: Victron, a: Action): Victron {
    match a
    case PublishVictron(r) => v.(queue := Put(v.queue, r))
    case StartWithoutVictron => v.(done := Slot(Some(false), v.done.sends + 1, true))
    case StartVictron => v.(collector := Scanning, drainer := Draining)
    case StopScanning => v.(collector := CollectorClosing)
    case CloseVictron => v.(collector := CollectorReporting, queue := v.queue.(closed := true))
    case ReportCollector => v.(collector := CollectorStopped, collectorDone := Send(v.collectorDone, false))
    case TakeVictron => if v.queue.buffer != [] then v.(queue := Get(v.queue)) else v
    case EndVictronDrain => v.(drainer := AwaitingCollector)
    case TakeCollectorDone =>
      if v.collectorDone.content.Some? then
        v.(drainer := Forwarding(v.collectorDone.content.value), collectorDone := v.collectorDone.(content := None))
      else v
    case Forward =>
      if v.drainer.Forwarding? then v.(drainer := ClosingDone, done := Send(v.done, v.drainer.failed)) else v
    case CloseDone => v.(drainer := DrainerStopped, done := v.done.(closed := true))
    case TakeVictronDone => v.(done := v.done.(content := None))
    case _ => v
  }

  /** Main's part. A value received from an empty closed channel is nil. */
  function StepMain(p: Process, a: Action): MainAt {
    match a
    case StartWithoutVictron => Consuming
    case StartVictron => Consuming
    case StartFails => Exited(StartFailure)
    case EndConsuming => AwaitingManager
    case TakeManagerDone => if p.litime.done.content == Some(true) then Exited(ManagerFailure) else AwaitingVictron
    case TakeVictronDone => if p.victron.done.content == Some(true) then Exited(VictronFailure) else Complete
    case _ => p.main
  }

  function Step(p: Process, a: Action): Process
    requires Enabled(p, a)
  {
    Process(p.batteries, p.cancelled || a == Cancel, StepMain(p, a), StepLitime(p.litime, p.batteries, a),
            StepVictron(p.victron, a))
  }

  predicate Legal(p: Process, actions: seq<Action>)
    decreases actions
  {
    actions == [] || (Enabled(p, actions[0]) && Legal(Step(p, actions[0]), actions[1..]))
  }

  function After(p: Process, actions: seq<Action>): Process
    requires Legal(p, actions)
    decreases actions
  {
    if actions == [] then p else After(Step(p, actions[0]), actions[1..])
  }

  // -------------------------------------------------------------- invariants

  predicate PastConsuming(m: MainAt) {
    || m == AwaitingManager || m == AwaitingVictron || m == Complete
    || m == Exited(ManagerFailure) || m == Exited(VictronFailure)
  }

  predicate PastManager(m: MainAt) {
    m == AwaitingVictron || m == Complete || m == Exited(VictronFailure)
  }

  ghost predicate LitimeSound(l: Litime, m: MainAt) {
    && Sound(l.queue)
    && (l.queue.closed <==> l.at.Reporting? || l.at.ManagerStopped?)
    && l.done.sends == (if l.at.ManagerStopped? then 1 else 0)
    && (l.done.content.Some? ==> l.at.ManagerStopped? && l.done.content.value == l.at.failed)
    && (l.at.ManagerStopped? && (m == Starting || m == Consuming || m == AwaitingManager) ==> l.done.content.Some?)
    && (PastConsuming(m) ==> Drained(l.queue))
    && (PastManager(m) ==> l.at == ManagerStopped(false))
    && (m == Exited(ManagerFailure) ==> l.at == ManagerStopped(true))
  }

  /** The drainer has seen the end of the queue. */
  predicate PastDraining(d: DrainerAt) {
    d == AwaitingCollector || d.Forwarding? || d == ClosingDone || d == DrainerStopped
  }

  /** The drainer has received how the collector ended. */
  predicate PastCollector(d: DrainerAt) {
    d.Forwarding? || d == ClosingDone || d == DrainerStopped
  }

  ghost predicate CollectorSound(v: Victron) {
    && Sound(v.queue)
    && (v.queue.closed <==> v.collector == CollectorReporting || v.collector == CollectorStopped)
    && v.collectorDone.sends == (if v.collector == CollectorStopped then 1 else 0)
    && (v.collectorDone.content.Some? ==> v.collector == CollectorStopped && !v.collectorDone.content.value)
    && (v.collector == CollectorStopped && !PastCollector(v.drainer) ==> v.collectorDone.content.Some?)
    && (PastCollector(v.drainer) ==> v.collector == CollectorStopped && v.collectorDone.content.None?)
    && (v.drainer == NoDrainer <==> v.collector == NoCollector)
    && (PastDraining(v.drainer) ==> Drained(v.queue))
    && (v.drainer.Forwarding? ==> !v.drainer.failed)
  }

  ghost predicate DoneSound(v: Victron, m: MainAt) {
    && (v.done.content.Some? ==> !v.done.content.value)
    && (m == Starting ==> v.drainer == NoDrainer && v.done == EMPTY)
    && (v.drainer == Draining || v.drainer == AwaitingCollector || v.drainer.Forwarding? ==>
          v.done == EMPTY && m != Complete)
    && (v.drainer == ClosingDone || v.drainer == DrainerStopped ==> v.done.sends == 1)
    && (v.drainer == ClosingDone && m != Complete ==> v.done.content.Some?)
    && (v.drainer == DrainerStopped ==> v.done.closed)
    && (v.drainer == NoDrainer && m != Starting && m != Exited(StartFailure) ==> v.done.sends == 1 && v.done.closed)
    && (m == Exited(StartFailure) ==> v.drainer == NoDrainer && v.done.sends == 0)
    && m != Exited(VictronFailure)
  }

  ghost predicate Inv(p: Process) {
    LitimeSound(p.litime, p.main) && CollectorSound(p.victron) && DoneSound(p.victron, p.main)
  }

  lemma GetKeepsSound<T>(c: Channel<T>)
    requires Sound(c) && c.buffer != []
    ensures Sound(Get(c))
  {
    assert c.buffer == [c.buffer[0]] + c.buffer[1..];
  }

  lemma StepKeepsLitime(p: Process, a: Action)
    requires Inv(p) && Enabled(p, a)
    ensures LitimeSound(Step(p, a).litime, Step(p, a).main)
  {
    if a.TakeReading? { GetKeepsSound(p.litime.queue); }
  }

  lemma StepKeepsCollector(p: Process, a: Action)
    requires Inv(p) && Enabled(p, a)
    ensures CollectorSound(Step(p, a).victron)
  {
    if a.TakeVictron? { GetKeepsSound(p.victron.queue); }
  }

  lemma StepKeepsDone(p: Process, a: Action)
    requires Inv(p) && Enabled(p, a)
    ensures DoneSound(Step(p, a).victron, Step(p, a).main)
  {
  }

  lemma {:induction false} RunKeeps(p: Process, actions: seq<Action>)
    requires Inv(p) && Legal(p, actions)
    ensures Inv(After(p, actions))
    decreases actions
  {
    if actions != [] {
      StepKeeps(p, actions[0]);
      RunKeeps(Step(p, actions[0]), actions[1..]);
    }
  }

  ghost predicate Reachable(p: Process) {
    exists batteries: nat, litime: nat, victron: nat, actions | Legal(Init(batteries, litime, victron), actions) ::
      p == After(Init(batteries, litime, victron), actions)
  }

  lemma ReachableHolds(p: Process)
    requires Reachable(p)
    ensures Inv(p)
  {
    var batteries: nat, litime: nat, victron: nat, actions :|
      Legal(Init(batteries, litime, victron), actions) && p == After(Init(batteries, litime, victron), actions);
    RunKeeps(Init(batteries, litime, victron), actions);
  }

  // ---------------------------------------------------------------- theorems

  /** "Shutdown complete" means what it says: the battery queue is closed and every
      accepted reading was handed to the writer, and so for the Victron queue when
      there is one; the manager ended without an error. */
  lemma CompleteMeansDrained(p: Process)
    requires Reachable(p) && p.main == Complete
    ensures Drained(p.litime.queue) && p.litime.at == ManagerStopped(false)
    ensures p.victron.drainer == NoDrainer || Drained(p.victron.queue)
  {
    ReachableHolds(p);
  }

  /** Each done channel gets at most one send, and exactly one in a complete
      shutdown, the collector's if there is a collector; nothing is ever sent to a
      full slot. */
  lemma OneSendEach(p: Process)
    requires Reachable(p)
    ensures p.litime.done.sends <= 1 && p.victron.collectorDone.sends <= 1 && p.victron.done.sends <= 1
    ensures p.main == Complete ==> p.litime.done.sends == p.victron.done.sends == 1
    ensures p.main == Complete && p.victron.collector != NoCollector ==> p.victron.collectorDone.sends == 1
    ensures p.litime.at.Reporting? ==> p.litime.done.content.None?
    ensures p.victron.collector == CollectorReporting ==> p.victron.collectorDone.content.None?
    ensures p.victron.drainer.Forwarding? ==> p.victron.done.content.None?
  {
    ReachableHolds(p);
  }

  /** Steps the process takes by itself, as opposed to what happens to it. */
  predicate Internal(a: Action) {
    !a.Cancel? && !a.PublishReading? && !a.PublishVictron?
  }

  function LitimeStep(p: Process): Action {
    match p.litime.at
    case Resolving => ResolveOk
    case Supervising(n) => if n > 0 then SupervisorReturns else AllReturned
    case ManagerClosing(_) => CloseReadings
    case _ => ReportManager
  }

  function VictronStep(p: Process): Action {
    match p.victron.drainer
    case AwaitingCollector => if p.victron.collector == CollectorReporting then ReportCollector else TakeCollectorDone
    case Forwarding(_) => Forward
    case ClosingDone => CloseDone
    case _ =>
      if p.victron.queue.buffer != [] then TakeVictron
      else if p.victron.collector == Scanning then StopScanning
      else if p.victron.collector == CollectorClosing then CloseVictron
      else EndVictronDrain
  }

  /** After cancellation some internal step is always possible until main ends. */
  lemma NeverDeadlocked(p: Process) returns (a: Action)
    requires Reachable(p) && p.cancelled && !Over(p)
    ensures Enabled(p, a) && Internal(a)
  {
    ReachableHolds(p);
    a := NextStep(p);
  }

  lemma NextStep(p: Process) returns (a: Action)
    requires Inv(p) && p.cancelled && !Over(p)
    ensures Enabled(p, a) && Internal(a) && a != ResolveFails && a != StartFails
  {
    match p.main
    case Starting => a := StartWithoutVictron;
    case Consuming =>
      if p.litime.queue.buffer != [] { a := TakeReading; }
      else if p.litime.queue.closed { a := EndConsuming; }
      else { a := LitimeStep(p); }
    case AwaitingManager =>
      a := if p.litime.done.content.Some? then TakeManagerDone else ReportManager;
    case AwaitingVictron =>
      a := if p.victron.done.content.Some? || p.victron.done.closed then TakeVictronDone else VictronStep(p);
  }

  /** While main has not ended, after the cancellation the manager never waits for the
      consumer, nor the collector for the drainer: each has a step until it has stopped,
      whatever is queued. */
  lemma ProducersNeverWait(p: Process)
    requires Inv(p) && p.cancelled && !Over(p)
    ensures !p.litime.at.ManagerStopped? ==> Enabled(p, LitimeStep(p))
    ensures p.victron.collector == Scanning ==> Enabled(p, StopScanning)
    ensures p.victron.collector == CollectorClosing ==> Enabled(p, CloseVictron)
    ensures p.victron.collector == CollectorReporting ==> Enabled(p, ReportCollector)
  {
  }

  /** Readings are accepted until the close, late ones of supervisors that have returned
      included, as long as there is room. */
  lemma AcceptedUntilClose(p: Process, r: Reading, v: VictronReading)
    requires Inv(p) && !Over(p)
    ensures !p.litime.at.Reporting? && !p.litime.at.ManagerStopped? &&
            |p.litime.queue.buffer| < p.litime.queue.capacity ==>
              Enabled(p, PublishReading(r)) && Step(p, PublishReading(r)).litime.queue.accepted ==
                                               p.litime.queue.accepted + [r]
    ensures p.victron.collector == Scanning && |p.victron.queue.buffer| < p.victron.queue.capacity ==>
              Enabled(p, PublishVictron(v)) && Step(p, PublishVictron(v)).victron.queue.accepted ==
                                               p.victron.queue.accepted + [v]
  {
  }

  // ------------------------------------------------------------- termination

  function MainRank(m: MainAt): nat {
    match m
    case Starting => 4
    case Consuming => 3
    case AwaitingManager => 2
    case AwaitingVictron => 1
    case _ => 0
  }

  function ManagerRank(m: ManagerAt, batteries: nat): nat {
    match m
    case Resolving => batteries + 4
    case Supervising(n) => n + 3
    case ManagerClosing(_) => 2
    case Reporting(_) => 1
    case ManagerStopped(_) => 0
  }

  function CollectorRank(c: CollectorAt): nat {
    match c
    case Scanning => 3
    case CollectorClosing => 2
    case CollectorReporting => 1
    case _ => 0
  }

  function DrainerRank(d: DrainerAt): nat {
    match d
    case Draining => 5
    case AwaitingCollector => 4
    case Forwarding(_) => 3
    case ClosingDone => 2
    case _ => 0
  }

  /** The control steps left; the Victron goroutines not yet started count too. */
  function ControlRank(p: Process): nat {
    MainRank(p.main) + ManagerRank(p.litime.at, p.batteries) +
    (if p.main == Starting then 8 else CollectorRank(p.victron.collector) + DrainerRank(p.victron.drainer))
  }

  function Queued(p: Process): nat {
    |p.litime.queue.buffer| + |p.victron.queue.buffer|
  }

  predicate IsPublish(a: Action) {
    a.PublishReading? || a.PublishVictron?
  }

  predicate IsTake(a: Action) {
    a.TakeReading? || a.TakeVictron?
  }

  lemma ControlFalls(p: Process, a: Action)
    requires Inv(p) && Enabled(p, a)
    ensures Internal(a) && !IsTake(a) ==> ControlRank(Step(p, a)) < ControlRank(p)
    ensures !Internal(a) || IsTake(a) ==> ControlRank(Step(p, a)) == ControlRank(p)
  {
  }

  lemma QueuesMove(p: Process, a: Action)
    requires Enabled(p, a)
    ensures Queued(Step(p, a)) == Queued(p) + One(IsPublish(a)) - One(IsTake(a))
  {
  }

  /** Every internal step uses up a control step or, leaving those as they are,
      takes one reading off a queue; nothing that happens to the process gives it
      more control steps, and only a publish adds a reading. */
  lemma StepUsesUp(p: Process, a: Action)
    requires Inv(p) && Enabled(p, a)
    ensures Internal(a) ==>
              || (ControlRank(Step(p, a)) < ControlRank(p) && Queued(Step(p, a)) == Queued(p))
              || (ControlRank(Step(p, a)) == ControlRank(p) && Queued(Step(p, a)) == Queued(p) - 1)
    ensures !Internal(a) ==>
              && ControlRank(Step(p, a)) == ControlRank(p)
              && Queued(Step(p, a)) == Queued(p) + One(IsPublish(a))
  {
    ControlFalls(p, a);
    QueuesMove(p, a);
  }

  lemma StepKeeps(p: Process, a: Action)
    requires Inv(p) && Enabled(p, a)
    ensures Inv(Step(p, a))
  {
    StepKeepsLitime(p, a);
    StepKeepsCollector(p, a);
    StepKeepsDone(p, a);
  }

  /** What is left to do: control steps, and queued readings to take. */
  function Work(p: Process): nat {
    ControlRank(p) + Queued(p)
  }

  function InternalSteps(actions: seq<Action>): nat {
    if actions == [] then 0 else One(Internal(actions[0])) + InternalSteps(actions[1..])
  }

  function Publishes(actions: seq<Action>): nat {
    if actions == [] then 0 else One(IsPublish(actions[0])) + Publishes(actions[1..])
  }

  /** In every run the steps the process takes by itself are paid for: by the work
      there was, and by one step for each reading published meanwhile. */
  lemma {:induction false} EveryRunIsPaidFor(p: Process, actions: seq<Action>)
    requires Inv(p) && Legal(p, actions)
    ensures InternalSteps(actions) + Work(After(p, actions)) <= Work(p) + Publishes(actions)
    decreases actions
  {
    if actions != [] {
      StepUsesUp(p, actions[0]);
      StepKeeps(p, actions[0]);
      EveryRunIsPaidFor(Step(p, actions[0]), actions[1..]);
    }
  }

  /** The manager's Run has failed, or is about to say so. */
  predicate Failed(m: ManagerAt) {
    match m
    case ManagerClosing(failed) => failed
    case Reporting(failed) => failed
    case ManagerStopped(failed) => failed
    case _ => false
  }

  /** From every state after the cancellation the process can end by itself, with no
      more than the steps its work takes: with "shutdown complete" unless the manager
      has failed already, or main has ended otherwise. By NeverDeadlocked it cannot
      get stuck on the way whatever steps it takes, and by EveryRunIsPaidFor it does
      not go round in circles. */
  lemma {:induction false} CanEndByItself(p: Process) returns (actions: seq<Action>)
    requires Inv(p) && p.cancelled
    ensures Legal(p, actions) && Over(After(p, actions))
    ensures InternalSteps(actions) == |actions| <= Work(p)
    ensures After(p, actions).main == Complete <==> !Failed(p.litime.at) && !p.main.Exited?
    decreases Work(p)
  {
    if Over(p) {
      actions := [];
    } else {
      var a := NextStep(p);
      StepUsesUp(p, a);
      StepKeeps(p, a);
      StepFails(p, a);
      var rest := CanEndByItself(Step(p, a));
      Extend(p, a, rest);
      actions := [a] + rest;
      assert actions[0] == a && actions[1..] == rest;
    }
  }

  lemma StepFails(p: Process, a: Action)
    requires Inv(p) && Enabled(p, a)
    ensures Failed(Step(p, a).litime.at) <==> Failed(p.litime.at) || a == ResolveFails
    ensures Step(p, a).main == Exited(StartFailure) <==> a == StartFails
    ensures Step(p, a).main.Exited? ==> a == StartFails || Failed(p.litime.at)
    ensures Step(p, a).main == Complete ==> !Failed(p.litime.at)
  {
  }

  lemma {:induction false} RunFails(p: Process, actions: seq<Action>)
    requires Inv(p) && Legal(p, actions)
    ensures Failed(After(p, actions).litime.at) <==> Failed(p.litime.at) || ResolveFails in actions
    decreases actions
  {
    if actions != [] {
      StepFails(p, actions[0]);
      StepKeeps(p, actions[0]);
      RunFails(Step(p, actions[0]), actions[1..]);
      assert actions == [actions[0]] + actions[1..];
    }
  }

  /** A started process that has ended says "shutdown complete" exactly if the first
      resolution did not fail: nothing else makes it exit with an error. */
  lemma CompleteIff(batteries: nat, litime: nat, victron: nat, actions: seq<Action>)
    requires Legal(Init(batteries, litime, victron), actions)
    requires Over(After(Init(batteries, litime, victron), actions))
    requires After(Init(batteries, litime, victron), actions).main != Exited(StartFailure)
    ensures After(Init(batteries, litime, victron), actions).main == Complete <==> ResolveFails !in actions
    ensures After(Init(batteries, litime, victron), actions).main == Exited(ManagerFailure) <==> ResolveFails in actions
  {
    RunKeeps(Init(batteries, litime, victron), actions);
    RunFails(Init(batteries, litime, victron), actions);
    CompleteUnlessItFailed(After(Init(batteries, litime, victron), actions));
  }

  lemma CompleteUnlessItFailed(p: Process)
    requires Inv(p) && Over(p) && p.main != Exited(StartFailure)
    ensures p.main == Complete <==> !Failed(p.litime.at)
    ensures p.main == Exited(ManagerFailure) <==> Failed(p.litime.at)
    ensures p.main != Exited(VictronFailure)
  {
    if p.main.Exited? {
      match p.main.why
      case StartFailure =>
      case ManagerFailure =>
      case VictronFailure =>
    }
  }

  /** How many supervisors have returned. */
  function Returns(actions: seq<Action>): nat {
    if actions == [] then 0 else One(actions[0] == SupervisorReturns) + Returns(actions[1..])
  }

  function Running(p: Process): nat {
    match p.litime.at
    case Resolving => p.batteries
    case Supervising(n) => n
    case _ => 0
  }

  /** Supervisors that are not waited for: all, when the resolution failed. */
  function Unstarted(p: Process): nat {
    if Failed(p.litime.at) then p.batteries else 0
  }

  lemma StepReturns(p: Process, a: Action)
    requires Inv(p) && Enabled(p, a)
    ensures Running(Step(p, a)) + Unstarted(Step(p, a)) + One(a == SupervisorReturns) == Running(p) + Unstarted(p)
    ensures Step(p, a).batteries == p.batteries
  {
  }

  lemma {:induction false} RunReturns(p: Process, actions: seq<Action>)
    requires Inv(p) && Legal(p, actions)
    ensures Running(After(p, actions)) + Unstarted(After(p, actions)) + Returns(actions) == Running(p) + Unstarted(p)
    ensures After(p, actions).batteries == p.batteries
    decreases actions
  {
    if actions != [] {
      StepReturns(p, actions[0]);
      StepKeeps(p, actions[0]);
      RunReturns(Step(p, actions[0]), actions[1..]);
    }
  }

  /** Before the end is reported every supervisor has returned, one for each battery,
      unless the resolution failed and none was started. */
  lemma AllReturnFirst(batteries: nat, litime: nat, victron: nat, actions: seq<Action>)
    requires Legal(Init(batteries, litime, victron), actions)
    requires After(Init(batteries, litime, victron), actions).litime.queue.closed
    ensures Returns(actions) == if ResolveFails in actions then 0 else batteries
  {
    var p := Init(batteries, litime, victron);
    RunKeeps(p, actions);
    RunFails(p, actions);
    RunReturns(p, actions);
  }

  /** Nothing winds down by itself: a supervisor that has returned, or a collector
      that has stopped scanning, has seen the cancellation. */
  ghost predicate WindsDownOnlyCancelled(p: Process) {
    && (p.litime.at.Supervising? ==> p.litime.at.running <= p.batteries)
    && (p.cancelled || Failed(p.litime.at) || p.litime.at == Resolving || Running(p) == p.batteries)
    && (p.cancelled || p.victron.collector == NoCollector || p.victron.collector == Scanning)
  }

  lemma {:induction false} RunsUntilCancelled(p: Process, actions: seq<Action>)
    requires Inv(p) && WindsDownOnlyCancelled(p) && Legal(p, actions)
    ensures WindsDownOnlyCancelled(After(p, actions))
    decreases actions
  {
    if actions != [] {
      StepKeeps(p, actions[0]);
      RunsUntilCancelled(Step(p, actions[0]), actions[1..]);
    }
  }

  /** With batteries configured, "shutdown complete" needs the signal. */
  lemma CompleteOnlyCancelled(p: Process)
    requires Reachable(p) && p.main == Complete && p.batteries > 0
    ensures p.cancelled
  {
    ReachableHolds(p);
    var batteries: nat, litime: nat, victron: nat, actions :|
      Legal(Init(batteries, litime, victron), actions) && p == After(Init(batteries, litime, victron), actions);
    RunsUntilCancelled(Init(batteries, litime, victron), actions);
  }

  predicate Closed(p: Process) {
    && p.cancelled && p.main != Starting
    && p.litime.queue.closed && (p.victron.collector == NoCollector || p.victron.queue.closed)
  }

  /** Once both queues are closed nothing is published any more: no run at all is
      longer than the work that is left. */
  lemma {:induction false} EndsByItself(p: Process, actions: seq<Action>)
    requires Inv(p) && Closed(p) && Legal(p, actions)
    ensures |actions| <= Work(p)
    decreases actions
  {
    if actions != [] {
      StepUsesUp(p, actions[0]);
      StepKeeps(p, actions[0]);
      EndsByItself(Step(p, actions[0]), actions[1..]);
    }
  }

  function ControlSteps(actions: seq<Action>): nat {
    if actions == [] then 0
    else One(Internal(actions[0]) && !IsTake(actions[0])) +
         ControlSteps(actions[1..])
  }

  /** However many readings arrive, a run has only so many control steps. */
  lemma {:induction false} ControlBounded(p: Process, actions: seq<Action>)
    requires Inv(p) && Legal(p, actions)
    ensures ControlSteps(actions) + ControlRank(After(p, actions)) <= ControlRank(p)
    decreases actions
  {
    if actions != [] {
      ControlFalls(p, actions[0]);
      StepKeeps(p, actions[0]);
      ControlBounded(Step(p, actions[0]), actions[1..]);
    }
  }

  /** From the very beginning that is sixteen and one for every battery. */
  lemma ControlFromStart(batteries: nat, litime: nat, victron: nat, actions: seq<Action>)
    requires Legal(Init(batteries, litime, victron), actions)
    ensures ControlSteps(actions) <= batteries + 16
  {
    ControlBounded(Init(batteries, litime, victron), actions);
  }

  // ------------------------------------------------------- when main gives up

  /** A run in which the manager fails while a Victron reading is still queued:
      main exits and the reading is never written. */
  lemma ManagerFailureAbandonsReadings(batteries: nat, litime: nat, victron: nat, v: VictronReading)
    returns (p: Process)
    requires victron > 0
    ensures Reachable(p) && p.main == Exited(ManagerFailure)
    ensures p.victron.collector != NoCollector
    ensures v in p.victron.queue.accepted && v !in p.victron.queue.handed
  {
    var p0 := Init(batteries, litime, victron);
    var p1 := Step(p0, StartVictron);
    var p2 := Step(p1, PublishVictron(v));
    p := ManagerGivesUp(p2);
    Extend(p1, PublishVictron(v), GIVING_UP);
    Extend(p0, StartVictron, [PublishVictron(v)] + GIVING_UP);
    assert Legal(p0, [StartVictron] + ([PublishVictron(v)] + GIVING_UP));
  }

  const EXITING: seq<Action> := [EndConsuming] + [TakeManagerDone]
  const GIVING_UP: seq<Action> := [ResolveFails] + ([CloseReadings] + ([ReportManager] + EXITING))

  /** The manager fails before any battery reading arrives, and main exits. */
  lemma ManagerGivesUp(p: Process) returns (end: Process)
    requires p.main == Consuming && p.litime.at == Resolving && !p.litime.queue.closed && p.litime.queue.buffer == []
    requires p.litime.done == EMPTY
    ensures Legal(p, GIVING_UP) && end == After(p, GIVING_UP)
    ensures end.main == Exited(ManagerFailure) && end.victron == p.victron
  {
    var p1 := Step(p, ResolveFails);
    var p2 := Step(p1, CloseReadings);
    var p3 := Step(p2, ReportManager);
    end := MainExits(p3);
    Extend(p2, ReportManager, EXITING);
    Extend(p1, CloseReadings, [ReportManager] + EXITING);
    Extend(p, ResolveFails, [CloseReadings] + ([ReportManager] + EXITING));
  }

  lemma MainExits(p: Process) returns (end: Process)
    requires p.main == Consuming && p.litime.queue.closed && p.litime.queue.buffer == []
    requires p.litime.done.content == Some(true)
    ensures Legal(p, EXITING) && end == After(p, EXITING)
    ensures end.main == Exited(ManagerFailure) && end.victron == p.victron
  {
    var p1 := Step(p, EndConsuming);
    end := Step(p1, TakeManagerDone);
    Extend(p1, TakeManagerDone, []);
    assert [TakeManagerDone] + [] == [TakeManagerDone];
    Extend(p, EndConsuming, [TakeManagerDone]);
  }

  lemma Extend(p: Process, a: Action, rest: seq<Action>)
    requires Enabled(p, a) && Legal(Step(p, a), rest)
    ensures Legal(p, [a] + rest) && After(p, [a] + rest) == After(Step(p, a), rest)
  {
    assert ([a] + rest)[1..] == rest;
  }

  /** A process that has ended after its start, with or without Victron devices,
      and whose manager failed or not. */
  ghost predicate EndedWith(p: Process, failed: bool, configured: bool) {
    && Reachable(p) && Over(p) && p.main != Exited(StartFailure)
    && p.litime.at == ManagerStopped(failed) && (p.victron.collector != NoCollector <==> configured)
  }

  /** When the process has ended after its start, all Victron readings are sure to
      have been handed to the writer exactly if the manager did not fail or there
      are no Victron devices. */
  lemma VictronDrainedIff(failed: bool, configured: bool)
    ensures !failed || !configured <==>
            forall p | EndedWith(p, failed, configured) :: p.victron.queue.handed == p.victron.queue.accepted
  {
    if failed && configured {
      var v := VictronReading("", 0, 0, "", RECORD_SOLAR_CHARGER, None, None);
      var p := ManagerFailureAbandonsReadings(1, 1, 1, v);
      ReachableHolds(p);
      assert EndedWith(p, failed, configured);
      assert p.victron.queue.handed != p.victron.queue.accepted;
    } else {
      forall p | EndedWith(p, failed, configured) ensures p.victron.queue.handed == p.victron.queue.accepted {
        if configured { CompleteUnlessFailed(p); } else { NoReadingWithoutCollector(p); }
      }
    }
  }

  lemma CompleteUnlessFailed(p: Process)
    requires EndedWith(p, false, true)
    ensures Drained(p.victron.queue)
  {
    ReachableHolds(p);
    CompleteUnlessItFailed(p);
    CompleteMeansDrained(p);
  }

  lemma NoReadingWithoutCollector(p: Process)
    requires Reachable(p) && p.victron.collector == NoCollector
    ensures p.victron.queue.accepted == [] && p.victron.queue.handed == []
  {
    var batteries: nat, litime: nat, victron: nat, actions :|
      Legal(Init(batteries, litime, victron), actions) && p == After(Init(batteries, litime, victron), actions);
    StaysEmpty(Init(batteries, litime, victron), actions);
  }

  lemma {:induction false} StaysEmpty(p: Process, actions: seq<Action>)
    requires Legal(p, actions)
    requires p.victron.queue.buffer == p.victron.queue.accepted == p.victron.queue.handed == []
    requires After(p, actions).victron.collector == NoCollector
    ensures After(p, actions).victron.queue.accepted == After(p, actions).victron.queue.handed == []
    decreases actions
  {
    if actions != [] {
      if Step(p, actions[0]).victron.collector != NoCollector {
        CollectorStays(Step(p, actions[0]), actions[1..]);
      }
      StaysEmpty(Step(p, actions[0]), actions[1..]);
    }
  }

  lemma {:induction false} CollectorStays(p: Process, actions: seq<Action>)
    requires Legal(p, actions) && p.victron.collector != NoCollector
    ensures After(p, actions).victron.collector != NoCollector
    decreases actions
  {
    if actions != [] {
      CollectorStays(Step(p, actions[0]), actions[1..]);
    }
  }
}

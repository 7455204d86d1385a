/**
 The reading queue of internal/litime/manager.go seen as one atomic object, and
 the Manager methods that act on it, each run alone. Module PublishProtocol takes
 the same methods apart into their locking steps and shows that any interleaving
 of them acts on the queue as the atomic operations here do.
 */
module ReadingQueue {
  import opened Prelude
  import opened Tallies

  /** A reading: its battery, when it was observed and what was decoded. */
  datatype Reading = Reading(battery: string, observedAt: int, data: seq<nat>)

  datatype PublishResult = Published | DroppedQueueFull | DroppedShuttingDown

  /** A bounded channel with the flag that says it is closed. */
  datatype Queue = Queue(capacity: nat, closed: bool, buffer: seq<Reading>)

  function Offer(q: Queue, r: Reading): (Queue, PublishResult) {
    if q.closed then (q, DroppedShuttingDown)
    else if |q.buffer| < q.capacity then (q.(buffer := q.buffer + [r]), Published)
    else (q, DroppedQueueFull)
  }

  function Close(q: Queue): Queue {
    q.(closed := true)
  }

  function Receive(q: Queue): (Queue, Reading)
    requires q.buffer != []
  {
    (q.(buffer := q.buffer[1..]), q.buffer[0])
  }

  /** An operation on the queue; a receive takes whatever is first, if anything. */
  datatype Op = OfferOp(r: Reading) | CloseOp | ReceiveOp

  function Apply(q: Queue, op: Op): Queue {
    match op
    case OfferOp(r) => Offer(q, r).0
    case CloseOp => Close(q)
    case ReceiveOp => if q.buffer == [] then q else Receive(q).0
  }

  function ApplyAll(q: Queue, ops: seq<Op>): Queue {
    if ops == [] then q else Apply(ApplyAll(q, ops[..|ops| - 1]), ops[|ops| - 1])
  }

  /** The readings the queue accepted over a history, in order. */
  function Accepted(q: Queue, ops: seq<Op>): seq<Reading> {
    if ops == [] then []
    else
      var before := ApplyAll(q, ops[..|ops| - 1]);
      Accepted(q, ops[..|ops| - 1]) +
      match ops[|ops| - 1]
      case OfferOp(r) => if Offer(before, r).1 == Published then [r] else []
      case _ => []
  }

  /** The readings handed out over a history, in order. */
  function Handed(q: Queue, ops: seq<Op>): seq<Reading> {
    if ops == [] then []
    else
      var before := ApplyAll(q, ops[..|ops| - 1]);
      Handed(q, ops[..|ops| - 1]) +
      if ops[|ops| - 1] == ReceiveOp && before.buffer != [] then [before.buffer[0]] else []
  }

  /** First in, first out, nothing lost and nothing made up: what was handed out,
      followed by what is waiting, is what was there and what was accepted. */
  lemma {:induction false} Conserves(q: Queue, ops: seq<Op>)
    requires |q.buffer| <= q.capacity
    ensures Handed(q, ops) + ApplyAll(q, ops).buffer == q.buffer + Accepted(q, ops)
    ensures |ApplyAll(q, ops).buffer| <= q.capacity == ApplyAll(q, ops).capacity
    ensures q.closed ==> Accepted(q, ops) == [] && ApplyAll(q, ops).closed
  {
    if ops != [] {
      var init, last := ops[..|ops| - 1], ops[|ops| - 1];
      Conserves(q, init);
      var before := ApplyAll(q, init);
      match last {
        case OfferOp(r) =>
          assert Handed(q, ops) == Handed(q, init);
          if Offer(before, r).1 == Published {
            assert Accepted(q, ops) == Accepted(q, init) + [r];
            assert Handed(q, ops) + (before.buffer + [r]) == (Handed(q, init) + before.buffer) + [r];
            assert q.buffer + (Accepted(q, init) + [r]) == (q.buffer + Accepted(q, init)) + [r];
          } else {
            assert Accepted(q, ops) == Accepted(q, init);
          }
        case CloseOp =>
          assert Handed(q, ops) == Handed(q, init) && Accepted(q, ops) == Accepted(q, init);
        case ReceiveOp =>
          assert Accepted(q, ops) == Accepted(q, init);
          if before.buffer != [] {
            assert Handed(q, ops) == Handed(q, init) + [before.buffer[0]];
            assert Handed(q, init) + before.buffer == (Handed(q, init) + [before.buffer[0]]) + before.buffer[1..];
          } else {
            assert Handed(q, ops) == Handed(q, init);
          }
      }
    }
  }

  /** The time of a connection's most recent reading, an object of its own for
      every connection attempt. */
  class LastSeen {
    var at: int

    constructor (now: int)
      ensures at == now
    {
      at := now;
    }

    method Store(now: int)
      modifies this
      ensures at == now
    {
      at := now;
    }
  }

  class Manager {
    const capacity: nat
    var closed: bool
    var readings: seq<Reading>
    var parseFailures: Tally
    var notifications: Tally
    var dropped: Tally

    ghost function View(): Queue
      reads this
    {
      Queue(capacity, closed, readings)
    }

    ghost predicate Valid()
      reads this
    {
      |readings| <= capacity
    }

    constructor (bufferSize: int)
      ensures Valid() && readings == [] && !closed
      ensures capacity == (if bufferSize <= 0 then 256 else bufferSize) && capacity > 0
    {
      capacity := if bufferSize <= 0 then 256 else bufferSize;
      closed := false;
      readings := [];
      parseFailures, notifications, dropped := map[], map[], map[];
    }

    method Publish(reading: Reading) returns (result: PublishResult)
      modifies this`readings
      ensures (View(), result) == Offer(old(View()), reading)
    {
      if closed {
        return DroppedShuttingDown;
      }
      if |readings| < capacity {
        readings := readings + [reading];
        return Published;
      }
      return DroppedQueueFull;
    }

    method CloseReadings()
      requires Valid()
      modifies this`closed
      ensures Valid() && View() == Close(old(View()))
    {
      closed := true;
    }

    method TakeReading() returns (reading: Reading)
      requires Valid() && readings != []
      modifies this`readings
      ensures Valid() && (View(), reading) == Receive(old(View()))
    {
      reading := readings[0];
      readings := readings[1..];
    }

    /** One notification callback. `parsed` is what the library made of the bytes,
        if it could. Only the counter of the callback's own connection moves. */
    method HandleNotification(battery: string, parsed: Option<seq<nat>>, lastSeen: LastSeen, now: int)
      requires Valid()
      modifies this, lastSeen
      ensures Valid()
      ensures parsed.None? ==> lastSeen.at == old(lastSeen.at) && View() == old(View())
      ensures parsed.None? ==> parseFailures == Bump(old(parseFailures), battery) && notifications == old(notifications)
      ensures parsed.Some? ==> lastSeen.at == now && View() == Offer(old(View()), Reading(battery, now, parsed.value)).0
      ensures parsed.Some? ==> notifications == Bump(old(notifications), battery) && parseFailures == old(parseFailures)
      ensures dropped == if parsed.Some? && !old(closed) && old(|readings|) == capacity
                         then Bump(old(dropped), battery) else old(dropped)
    {
      if parsed.None? {
        parseFailures := Bump(parseFailures, battery);
        return;
      }

      lastSeen.Store(now);
      notifications := Bump(notifications, battery);

      var result := Publish(Reading(battery, now, parsed.value));
      match result {
        case DroppedQueueFull =>
          dropped := Bump(dropped, battery);
        case DroppedShuttingDown =>
        case Published =>
      }
    }
  }
}

/**
 The silence detector (connect and pollUntilStale in internal/litime/manager.go)
 and the configuration check meant to keep it from false alarms (NewManager). Times
 are nanoseconds on one clock that never runs backwards.
 */
module Staleness {
  import opened Prelude
  import opened Tallies
  import opened ReadingQueue
  import opened Backoff

  // ------------------------------------------------------------ configuration

  datatype Options = Options(batteries: nat, scrapeInterval: int, staleTimeout: int, bufferSize: int)

  datatype Config = Config(scrapeInterval: int, staleTimeout: int, bufferSize: int)

  datatype OptionsError = NoBatteries | StaleTimeoutTooShort | NoAdapter

  /** NewManager: zero and negative values mean the defaults. */
  function NewManager(o: Options, adapterResolves: bool): (r: Result<Config, OptionsError>)
    ensures r.Ok? ==> 0 < r.value.scrapeInterval < r.value.staleTimeout && r.value.bufferSize > 0
    ensures r.Ok? ==>
              && (if o.scrapeInterval > 0 then r.value.scrapeInterval == o.scrapeInterval
                  else r.value.scrapeInterval == Seconds(10))
              && (if o.staleTimeout > 0 then r.value.staleTimeout == o.staleTimeout
                  else r.value.staleTimeout == Seconds(90))
              && (if o.bufferSize > 0 then r.value.bufferSize == o.bufferSize else r.value.bufferSize == 256)
    ensures r == Err(NoBatteries) <==> o.batteries == 0
    ensures r == Err(NoAdapter) ==> !adapterResolves
    ensures r.Ok? <==> o.batteries > 0 && adapterResolves && EffectiveScrape(o) < EffectiveStale(o)
  {
    var scrape, stale := EffectiveScrape(o), EffectiveStale(o);
    if o.batteries == 0 then Err(NoBatteries)
    else if stale <= scrape then Err(StaleTimeoutTooShort)
    else if !adapterResolves then Err(NoAdapter)
    else Ok(Config(scrape, stale, if o.bufferSize <= 0 then 256 else o.bufferSize))
  }

  function EffectiveScrape(o: Options): int {
    if o.scrapeInterval <= 0 then Seconds(10) else o.scrapeInterval
  }

  function EffectiveStale(o: Options): int {
    if o.staleTimeout <= 0 then Seconds(90) else o.staleTimeout
  }

  // ------------------------------------------------------------- the poll loop

  /** What wakes the loop: the context, or a tick. For a tick, whether the query
      was sent, the stored time that was loaded, and the time of the comparison. */
  datatype Wake = Cancelled | Tick(queryOk: bool, loaded: int, now: int)

  datatype Reason = ShuttingDown | QueryFailed | NoReading(silence: int) | StillPolling

  predicate Silent(w: Wake, staleTimeout: int) {
    w.Tick? && w.queryOk && w.now - w.loaded > staleTimeout
  }

  predicate Ends(w: Wake, staleTimeout: int) {
    w.Cancelled? || !w.queryOk || Silent(w, staleTimeout)
  }

  /** Wake i is the first to end the polling. */
  ghost predicate EndsFirst(wakes: seq<Wake>, staleTimeout: int, i: nat) {
    i < |wakes| && Ends(wakes[i], staleTimeout) && forall j | 0 <= j < i :: !Ends(wakes[j], staleTimeout)
  }

  ghost predicate ReportsSilence(wakes: seq<Wake>, staleTimeout: int) {
    exists i: nat :: EndsFirst(wakes, staleTimeout, i) && Silent(wakes[i], staleTimeout)
  }

  /** The loop over the wakes it is given: it returns at the first that ends it, for
      that wake's reason, and polls on through all others. */
  method PollUntilStale(wakes: seq<Wake>, staleTimeout: int) returns (reason: Reason, at: nat)
    ensures at <= |wakes| && forall j | 0 <= j < at ::
              wakes[j].Tick? && wakes[j].queryOk && wakes[j].now - wakes[j].loaded <= staleTimeout
    ensures reason == StillPolling <==> at == |wakes|
    ensures reason == ShuttingDown <==> at < |wakes| && wakes[at].Cancelled?
    ensures reason == QueryFailed <==> at < |wakes| && wakes[at].Tick? && !wakes[at].queryOk
    ensures reason.NoReading? <==>
              at < |wakes| && wakes[at].Tick? && wakes[at].queryOk && wakes[at].now - wakes[at].loaded > staleTimeout
    ensures reason.NoReading? ==> reason.silence == wakes[at].now - wakes[at].loaded
    ensures reason != StillPolling ==> EndsFirst(wakes, staleTimeout, at)
    ensures reason.NoReading? <==> ReportsSilence(wakes, staleTimeout)
  {
    at := 0;
    while at < |wakes|
      invariant 0 <= at <= |wakes|
      invariant forall j | 0 <= j < at :: !Ends(wakes[j], staleTimeout)
      invariant forall j | 0 <= j < at ::
                  wakes[j].Tick? && wakes[j].queryOk && wakes[j].now - wakes[j].loaded <= staleTimeout
    {
      match wakes[at] {
        case Cancelled =>
          return ShuttingDown, at;
        case Tick(queryOk, loaded, now) =>
          if !queryOk {
            return QueryFailed, at;
          }
          var silence := now - loaded;
          if silence > staleTimeout {
            assert EndsFirst(wakes, staleTimeout, at);
            return NoReading(silence), at;
          }
      }
      at := at + 1;
    }
    return StillPolling, at;
  }

  // ------------------------------------------------- one connection's counter

  /** The life of the counters: every connection attempt begins with one of its own,
      which its callbacks hold on to; those of a former connection may still come. */
  datatype Life = Begins(now: int) | Stores(connection: nat, now: int)

  function Begun(events: seq<Life>): nat {
    if events == [] then 0 else Begun(events[..|events| - 1]) + One(events[|events| - 1].Begins?)
  }

  /** A callback stores into the counter its connection began with. */
  ghost predicate Captured(events: seq<Life>) {
    events == [] ||
    var init, last := events[..|events| - 1], events[|events| - 1];
    Captured(init) && (last.Stores? ==> last.connection < Begun(init))
  }

  predicate Belongs(before: seq<Life>, e: Life, connection: nat) {
    match e
    case Begins(_) => Begun(before) == connection
    case Stores(c, _) => c == connection
  }

  /** The times of one connection: its beginning, then its readings. */
  function Own(events: seq<Life>, connection: nat): seq<int> {
    if events == [] then []
    else
      var init, last := events[..|events| - 1], events[|events| - 1];
      Own(init, connection) + if Belongs(init, last, connection) then [last.now] else []
  }

  /** What all counters hold after these events. */
  function Values(events: seq<Life>): (v: seq<int>)
    requires Captured(events)
    ensures |v| == Begun(events)
  {
    if events == [] then []
    else
      var before := Values(events[..|events| - 1]);
      match events[|events| - 1]
      case Begins(now) => before + [now]
      case Stores(connection, now) => before[connection := now]
  }

  lemma {:induction false} ValueIsLatest(events: seq<Life>, connection: nat)
    requires Captured(events) && connection < Begun(events)
    ensures Own(events, connection) != []
    ensures Values(events)[connection] == Own(events, connection)[|Own(events, connection)| - 1]
  {
    var init := events[..|events| - 1];
    if connection < Begun(init) {
      ValueIsLatest(init, connection);
    }
  }

  /** connect and handleNotification on the heap: each attempt allocates a counter,
      so what one holds is its own connection's latest store, whatever the callbacks
      of other connections, older or newer, have stored meanwhile. */
  method TrackConnections(events: seq<Life>) returns (counters: seq<LastSeen>)
    requires Captured(events)
    ensures |counters| == Begun(events)
    ensures forall k | 0 <= k < |counters| :: fresh(counters[k]) && HoldsLatest(counters[k], Own(events, k))
  {
    counters := [];
    assert events[..0] == [];
    for i := 0 to |events|
      invariant Captured(events[..i]) && |counters| == Begun(events[..i])
      invariant forall k | 0 <= k < |counters| :: fresh(counters[k]) && counters[k].at == Values(events[..i])[k]
      invariant forall j, k | 0 <= j < k < |counters| :: counters[j] != counters[k]
    {
      CapturedBefore(events, i);
      match events[i] {
        case Begins(now) =>
          var counter := new LastSeen(now);
          counters := counters + [counter];
        case Stores(connection, now) =>
          counters[connection].Store(now);
      }
    }
    assert events[..|events|] == events;
    forall k | 0 <= k < |counters| ensures HoldsLatest(counters[k], Own(events, k)) {
      ValueIsLatest(events, k);
    }
  }

  ghost predicate HoldsLatest(counter: LastSeen, own: seq<int>)
    reads counter
  {
    own != [] && counter.at == own[|own| - 1]
  }

  lemma {:induction false} CapturedBefore(events: seq<Life>, i: nat)
    requires Captured(events) && i < |events|
    ensures Captured(events[..i]) && Captured(events[..i + 1])
    ensures Begun(events[..i + 1]) == Begun(events[..i]) + One(events[i].Begins?)
    ensures match events[i]
            case Begins(now) => Values(events[..i + 1]) == Values(events[..i]) + [now]
            case Stores(connection, now) =>
              && connection < Begun(events[..i])
              && Values(events[..i + 1]) == Values(events[..i])[connection := now]
    decreases |events|
  {
    var n := |events| - 1;
    if i < n {
      assert events[..n][..i] == events[..i] && events[..n][..i + 1] == events[..i + 1];
      CapturedBefore(events[..n], i);
    } else {
      assert events[..i + 1] == events;
    }
  }

  /** A connection's counter: stored when the connection is begun, before it is
      made, and at each of its readings. */
  datatype Counter = Counter(created: int, readings: seq<int>)
  {
    /** Its value at time t. */
    function At(t: int): int {
      Latest(created, readings, t)
    }
  }

  function Latest(created: int, readings: seq<int>, t: int): int {
    if readings == [] then created
    else
      var before := Latest(created, readings[..|readings| - 1], t);
      var last := readings[|readings| - 1];
      if before < last <= t then last else before
  }

  lemma {:induction false} LatestIs(created: int, readings: seq<int>, t: int)
    ensures Latest(created, readings, t) == created || Latest(created, readings, t) in readings
    ensures Latest(created, readings, t) >= created
    ensures created <= t ==> Latest(created, readings, t) <= t
    ensures forall x | x in readings && x <= t :: x <= Latest(created, readings, t)
  {
    if readings != [] {
      LatestIs(created, readings[..|readings| - 1], t);
      var n := |readings| - 1;
      assert readings == readings[..n] + [readings[n]];
    }
  }

  ghost predicate InTimeOrder(events: seq<Life>, t: int) {
    && (forall i | 0 <= i < |events| :: events[i].now <= t)
    && (forall i, j | 0 <= i < j < |events| :: events[i].now <= events[j].now)
  }

  lemma {:induction false} OwnBounded(events: seq<Life>, connection: nat, t: int)
    requires InTimeOrder(events, t)
    ensures forall x | x in Own(events, connection) :: x <= t
    ensures Own(events, connection) != [] ==>
              forall x | x in Own(events, connection) :: x <= Own(events, connection)[|Own(events, connection)| - 1]
  {
    if events != [] {
      var n := |events| - 1;
      OwnBounded(events[..n], connection, events[n].now);
      OwnBounded(events[..n], connection, t);
    }
  }

  /** When stores come in time order, the latest store is the counter's value as the
      detector's lemmas below have it. */
  lemma LatestStoreIsValue(events: seq<Life>, connection: nat, t: int)
    requires InTimeOrder(events, t) && Captured(events) && connection < Begun(events)
    ensures Own(events, connection) != []
    ensures var own := Own(events, connection); own[|own| - 1] == Counter(own[0], own[1..]).At(t)
  {
    ValueIsLatest(events, connection);
    OwnBounded(events, connection, t);
    var own := Own(events, connection);
    LatestIs(own[0], own[1..], t);
    assert own == [own[0]] + own[1..];
    var last := own[|own| - 1];
    assert last in own;
    assert |own| > 1 ==> last == own[1..][|own| - 2] && last in own[1..];
    assert Latest(own[0], own[1..], t) in own;
  }

  // --------------------------------------------------------- no false alarms

  /** One tick as served: when it fired, when the counter was loaded and when the
      silence was computed. */
  datatype Check = Check(tick: int, load: int, now: int)

  function WakeOf(c: Counter, k: Check): Wake {
    Tick(true, c.At(k.load), k.now)
  }

  function WakesOf(c: Counter, checks: seq<Check>): seq<Wake> {
    seq(|checks|, i requires 0 <= i < |checks| => WakeOf(c, checks[i]))
  }

  ghost predicate Answered(c: Counter, from: int, to: int) {
    exists x | x in c.readings :: from <= x <= to
  }

  /** Of the m + 1 queries before check k, one was answered before the next tick. */
  ghost predicate AnsweredWithin(c: Counter, checks: seq<Check>, k: nat, m: nat)
    requires m < k < |checks|
  {
    exists q | k - m - 1 <= q < k :: Answered(c, checks[q].tick, checks[q + 1].tick)
  }

  /** A connection that took `delay` to make, polled every `interval` from then on,
      each check served within `lag` of its tick, whose battery misses at most m
      replies in a row; with m == 0 it answers every query before the next tick. */
  ghost predicate Healthy(c: Counter, checks: seq<Check>, delay: int, interval: int, lag: int, m: nat) {
    && (forall k | 0 <= k < |checks| ::
          && checks[k].tick == c.created + delay + (k + 1) * interval
          && checks[k].tick <= checks[k].load <= checks[k].now <= checks[k].tick + lag)
    && (forall k | m < k < |checks| :: AnsweredWithin(c, checks, k, m))
  }

  lemma Intervals(a: int, b: int, interval: int)
    requires a <= b && interval > 0
    ensures a * interval <= b * interval
  {
  }

  /** The time from tick q to tick k. */
  lemma TicksApart(c: Counter, checks: seq<Check>, delay: int, interval: int, lag: int, m: nat, q: nat, k: nat)
    requires Healthy(c, checks, delay, interval, lag, m) && interval > 0 && q <= k < |checks| && k - q <= m + 1
    ensures checks[k].tick - checks[q].tick <= (m + 1) * interval
  {
    Intervals(k - q, m + 1, interval);
    assert (k + 1) * interval - (q + 1) * interval == (k - q) * interval;
  }

  lemma TickBefore(c: Counter, checks: seq<Check>, delay: int, interval: int, lag: int, m: nat, q: nat, k: nat)
    requires Healthy(c, checks, delay, interval, lag, m) && interval > 0 && q <= k < |checks|
    ensures checks[q].tick <= checks[k].tick
  {
    Intervals(q + 1, k + 1, interval);
  }

  lemma StoredSince(c: Counter, from: int, to: int, load: int)
    requires Answered(c, from, to) && to <= load
    ensures c.At(load) >= from
  {
    LatestIs(c.created, c.readings, load);
    var x :| x in c.readings && from <= x <= to;
  }

  /** The answer that one of the m + 1 queries before a check got is in its load. */
  lemma StoredByAnswer(c: Counter, checks: seq<Check>, delay: int, interval: int, lag: int, m: nat, k: nat)
    requires interval > 0 && Healthy(c, checks, delay, interval, lag, m) && m < k < |checks|
    ensures c.At(checks[k].load) >= checks[k].tick - (m + 1) * interval
  {
    assert AnsweredWithin(c, checks, k, m);
    var q :| k - m - 1 <= q < k && Answered(c, checks[q].tick, checks[q + 1].tick);
    TickBefore(c, checks, delay, interval, lag, m, q + 1, k);
    StoredSince(c, checks[q].tick, checks[q + 1].tick, checks[k].load);
    TicksApart(c, checks, delay, interval, lag, m, q, k);
  }

  /** At check k the counter was last stored no longer ago than m + 1 intervals, and
      the connection time if there has been no reading yet. */
  lemma StoredRecently(c: Counter, checks: seq<Check>, delay: int, interval: int, lag: int, m: nat, k: nat)
    requires delay >= 0 && interval > 0 && lag >= 0
    requires Healthy(c, checks, delay, interval, lag, m) && k < |checks|
    ensures c.At(checks[k].load) >= checks[k].tick - delay - (m + 1) * interval
  {
    if k > m {
      StoredByAnswer(c, checks, delay, interval, lag, m, k);
    } else {
      LatestIs(c.created, c.readings, checks[k].load);
      Intervals(k + 1, m + 1, interval);
    }
  }

  lemma HealthyChecksPass(c: Counter, checks: seq<Check>, delay: int, interval: int, lag: int, m: nat,
                          staleTimeout: int, k: nat)
    requires delay >= 0 && interval > 0 && lag >= 0 && delay + (m + 1) * interval + lag <= staleTimeout
    requires Healthy(c, checks, delay, interval, lag, m) && k < |checks|
    ensures !Ends(WakesOf(c, checks)[k], staleTimeout)
  {
    StoredRecently(c, checks, delay, interval, lag, m, k);
    assert checks[k].now <= checks[k].tick + lag;
  }

  /** The first checks of a connection whose battery has missed m replies; the last
      of them is served late. */
  function FirstChecks(delay: int, interval: int, lag: int, m: nat): (Counter, seq<Check>) {
    (Counter(0, []),
     seq(m + 1, k requires 0 <= k <= m => CheckAt(delay + (k + 1) * interval, if k == m then lag else 0)))
  }

  function CheckAt(tick: int, lag: int): Check {
    Check(tick, tick + lag, tick + lag)
  }

  lemma FirstChecksDrop(delay: int, interval: int, lag: int, m: nat, staleTimeout: int)
    requires delay >= 0 && interval > 0 && lag >= 0 && delay + (m + 1) * interval + lag > staleTimeout
    ensures var (c, checks) := FirstChecks(delay, interval, lag, m);
            Healthy(c, checks, delay, interval, lag, m) && ReportsSilence(WakesOf(c, checks), staleTimeout)
  {
    var (c, checks) := FirstChecks(delay, interval, lag, m);
    SilentIsReported(WakesOf(c, checks), staleTimeout, m);
  }

  /** Among served ticks a silent one makes the loop report silence. */
  lemma {:induction false} SilentIsReported(wakes: seq<Wake>, staleTimeout: int, i: nat)
    requires i < |wakes| && Silent(wakes[i], staleTimeout)
    requires forall j | 0 <= j < i :: wakes[j].Tick? && wakes[j].queryOk
    ensures ReportsSilence(wakes, staleTimeout)
  {
    if j :| 0 <= j < i && Silent(wakes[j], staleTimeout) {
      SilentIsReported(wakes, staleTimeout, j);
    } else {
      assert EndsFirst(wakes, staleTimeout, i);
    }
  }

  /** The exact condition: a battery that misses at most m replies in a row is never
      reported silent if and only if the time to connect, m + 1 intervals and the
      serving lag together stay within the stale timeout. The counter starts before
      the connection is made, so the connection time counts. */
  lemma NoFalseAlarmIff(delay: int, interval: int, lag: int, m: nat, staleTimeout: int)
    requires delay >= 0 && interval > 0 && lag >= 0
    ensures delay + (m + 1) * interval + lag <= staleTimeout <==>
            forall c, checks | Healthy(c, checks, delay, interval, lag, m) ::
              !ReportsSilence(WakesOf(c, checks), staleTimeout)
  {
    if delay + (m + 1) * interval + lag <= staleTimeout {
      forall c, checks | Healthy(c, checks, delay, interval, lag, m)
        ensures !ReportsSilence(WakesOf(c, checks), staleTimeout)
      {
        forall i: nat | i < |checks| ensures !Ends(WakesOf(c, checks)[i], staleTimeout) {
          HealthyChecksPass(c, checks, delay, interval, lag, m, staleTimeout, i);
        }
      }
    } else {
      FirstChecksDrop(delay, interval, lag, m, staleTimeout);
      var (c, checks) := FirstChecks(delay, interval, lag, m);
      assert Healthy(c, checks, delay, interval, lag, m);
    }
  }

  /** Every configuration NewManager accepts drops a battery that answers every query
      at its first tick when connecting takes long enough, and the shortest such time
      is just over the difference of its two settings. */
  lemma AcceptedConfigCanDrop(o: Options, delay: int)
    requires NewManager(o, true).Ok? && delay >= 0
    ensures var cfg := NewManager(o, true).value;
            var (c, checks) := FirstChecks(delay, cfg.scrapeInterval, 0, 0);
            && Healthy(c, checks, delay, cfg.scrapeInterval, 0, 0)
            && (ReportsSilence(WakesOf(c, checks), cfg.staleTimeout) <==> delay > cfg.staleTimeout - cfg.scrapeInterval)
  {
    var cfg := NewManager(o, true).value;
    if delay > cfg.staleTimeout - cfg.scrapeInterval {
      FirstChecksDrop(delay, cfg.scrapeInterval, 0, 0, cfg.staleTimeout);
    } else {
      NoFalseAlarmIff(delay, cfg.scrapeInterval, 0, 0, cfg.staleTimeout);
      var (c, checks) := FirstChecks(delay, cfg.scrapeInterval, 0, 0);
      assert Healthy(c, checks, delay, cfg.scrapeInterval, 0, 0);
    }
  }

  // -------------------------------------------------------- bounded detection

  /** Polling that began at p and never waits longer than `gap` for a check. */
  ghost predicate GapsAtMost(wakes: seq<Wake>, p: int, gap: int) {
    && (forall i | 0 <= i < |wakes| :: wakes[i].Tick? && wakes[i].queryOk)
    && (wakes != [] ==> wakes[0].now <= p + gap)
    && (forall i | 0 < i < |wakes| :: wakes[i - 1].now <= wakes[i].now <= wakes[i - 1].now + gap)
  }

  /** When nothing newer than `last` is in the counter, polling ends at the first
      check past last + staleTimeout, and so within one gap of that moment or of
      its own beginning. */
  lemma DetectedInTime(wakes: seq<Wake>, p: int, gap: int, last: int, staleTimeout: int) returns (at: nat)
    requires GapsAtMost(wakes, p, gap)
    requires forall i | 0 <= i < |wakes| :: wakes[i].loaded <= last
    requires wakes != [] && wakes[|wakes| - 1].now > last + staleTimeout
    ensures EndsFirst(wakes, staleTimeout, at) && Silent(wakes[at], staleTimeout)
    ensures wakes[at].now <= p + gap || wakes[at].now <= last + staleTimeout + gap
  {
    at := 0;
    while !Ends(wakes[at], staleTimeout)
      invariant at < |wakes|
      invariant forall j | 0 <= j < at :: !Ends(wakes[j], staleTimeout)
      decreases |wakes| - at
    {
      at := at + 1;
    }
    if at > 0 {
      assert !Ends(wakes[at - 1], staleTimeout);
      assert wakes[at].now <= wakes[at - 1].now + gap;
    }
  }

  /** The bound for a connection: if its last reading, or its beginning, was no
      later than `last`, the loop returns within one gap of last + staleTimeout, or
      of its own beginning. */
  lemma SilenceDetected(c: Counter, checks: seq<Check>, p: int, gap: int, last: int, staleTimeout: int)
    returns (at: nat)
    requires c.created <= last && forall x | x in c.readings :: x <= last
    requires GapsAtMost(WakesOf(c, checks), p, gap)
    requires checks != [] && checks[|checks| - 1].now > last + staleTimeout
    ensures EndsFirst(WakesOf(c, checks), staleTimeout, at)
    ensures checks[at].now <= (if p > last + staleTimeout then p else last + staleTimeout) + gap
    ensures checks[at].now - c.At(checks[at].load) > staleTimeout
  {
    forall i | 0 <= i < |checks| ensures WakesOf(c, checks)[i].loaded <= last {
      LatestIs(c.created, c.readings, checks[i].load);
    }
    at := DetectedInTime(WakesOf(c, checks), p, gap, last, staleTimeout);
  }

  /** A check made when the first `seen` events have happened. */
  datatype Poll = Poll(seen: nat, now: int)

  lemma {:induction false} CapturedPrefix(events: seq<Life>, connection: nat, n: nat)
    requires Captured(events) && n <= |events|
    ensures Captured(events[..n]) && Own(events[..n], connection) <= Own(events, connection)
    decreases |events|
  {
    if n == |events| {
      assert events[..n] == events;
    } else {
      assert events[..|events| - 1][..n] == events[..n];
      CapturedPrefix(events[..|events| - 1], connection, n);
    }
  }

  ghost predicate PollsOf(events: seq<Life>, connection: nat, polls: seq<Poll>) {
    forall i | 0 <= i < |polls| :: polls[i].seen <= |events| && connection < Begun(events[..polls[i].seen])
  }

  /** What a connection's counter holds when the first n events have happened. */
  function LoadAt(events: seq<Life>, connection: nat, n: nat): int
    requires Captured(events) && n <= |events| && connection < Begun(events[..n])
  {
    CapturedPrefix(events, connection, n);
    Values(events[..n])[connection]
  }

  /** What the connection's loop sees: each time it loads the counter it was given. */
  function Loads(events: seq<Life>, connection: nat, polls: seq<Poll>): seq<Wake>
    requires Captured(events) && PollsOf(events, connection, polls)
  {
    seq(|polls|, i requires 0 <= i < |polls| =>
      Tick(true, LoadAt(events, connection, polls[i].seen), polls[i].now))
  }

  lemma LoadIsOwn(events: seq<Life>, connection: nat, n: nat)
    requires Captured(events) && n <= |events| && connection < Begun(events[..n])
    ensures var own := Own(events[..n], connection);
            && own != [] && LoadAt(events, connection, n) == own[|own| - 1]
            && own[|own| - 1] in Own(events, connection)
  {
    CapturedPrefix(events, connection, n);
    ValueIsLatest(events[..n], connection);
    var own := Own(events[..n], connection);
    assert own[|own| - 1] == Own(events, connection)[|own| - 1];
  }

  /** The whole of it: connections come and go, and their callbacks store whenever
      they like. If nothing of one connection itself is stored after `last`, then its
      loop returns within one gap of last + staleTimeout, or of its own beginning,
      and the silence it reports is measured from its own latest store at the time of
      loading, whatever the other connections store. */
  lemma SilenceDetectedAmongOthers(events: seq<Life>, connection: nat, polls: seq<Poll>, p: int, gap: int, last: int,
                                   staleTimeout: int)
    returns (at: nat)
    requires Captured(events) && PollsOf(events, connection, polls)
    requires forall x | x in Own(events, connection) :: x <= last
    requires GapsAtMost(Loads(events, connection, polls), p, gap)
    requires polls != [] && polls[|polls| - 1].now > last + staleTimeout
    ensures EndsFirst(Loads(events, connection, polls), staleTimeout, at)
    ensures polls[at].now <= (if p > last + staleTimeout then p else last + staleTimeout) + gap
    ensures var own := Own(events[..polls[at].seen], connection);
            own != [] && polls[at].now - own[|own| - 1] > staleTimeout
  {
    var wakes := Loads(events, connection, polls);
    forall i | 0 <= i < |polls| ensures wakes[i].loaded <= last {
      LoadIsOwn(events, connection, polls[i].seen);
    }
    at := DetectedInTime(wakes, p, gap, last, staleTimeout);
    LoadIsOwn(events, connection, polls[at].seen);
  }
}

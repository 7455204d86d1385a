/**
 One battery's supervisor (superviseBattery in internal/litime/manager.go). A turn
 is one pass of its loop with everything the outside decides in that pass: what
 the context says when asked, what the rescan finds, whether the connection is
 made and how long things take. Context answers are arbitrary in every turn, so
 what holds here holds for every moment of cancellation.
 */
module Supervisor {
  import opened Prelude
  import opened Bluetooth
  import opened Backoff
  import opened Tallies

  datatype Event =
    | Rescanned(found: Option<Address>)
    | ConnectFailed(address: Address)
    | Connected(address: Address)
    | Gauge(on: bool)
    | Polled
    | Disconnected
    | Reconnecting
    | Slept(wait: nat, from: nat, to: nat, full: bool)

  /** A sleep runs its full time and wakes a little late, or is cut short. */
  datatype Sleep = Woke(late: nat) | CutShort(after: nat)

  datatype Turn = Turn(cancelledBefore: bool, rescan: Option<Address>, connects: bool,
                       cancelledAfterPoll: bool, busy: nat, sleep: Sleep)

  /** A supervisor's variables, its clock, and what it has done so far. */
  datatype Member = Member(address: Option<Address>, backoff: nat, now: nat, returned: bool, trace: seq<Event>)

  function Start(address: Option<Address>, now: nat): Member {
    Member(address, MIN_RECONNECT_BACKOFF, now, false, [])
  }

  function Log(m: Member, e: Event): Member {
    m.(trace := m.trace + [e])
  }

  /** A wait of the current backoff, which doubles it, or the end. */
  function Rest(m: Member, t: Turn): Member {
    var from := m.now + t.busy;
    match t.sleep
    case Woke(late) =>
      var to := from + m.backoff + late;
      Log(m, Slept(m.backoff, from, to, true)).(backoff := NextBackoff(m.backoff), now := to)
    case CutShort(after) =>
      Log(m, Slept(m.backoff, from, from + after, false)).(now := from + after, returned := true)
  }

  function Attempt(m: Member, a: Address, t: Turn): Member {
    if !t.connects then Rest(Log(Log(m, ConnectFailed(a)), Gauge(false)), t)
    else
      var up := Log(Log(m, Connected(a)), Gauge(true)).(backoff := MIN_RECONNECT_BACKOFF);
      var down := Log(Log(Log(up, Polled), Disconnected), Gauge(false));
      if t.cancelledAfterPoll then down.(returned := true) else Rest(Log(down, Reconnecting), t)
  }

  function Rescan(m: Member, t: Turn): Member {
    if m.address.Some? then m else Log(m, Rescanned(t.rescan)).(address := t.rescan)
  }

  function TakeTurn(m: Member, t: Turn): Member {
    if m.returned || t.cancelledBefore then m.(returned := true)
    else
      var r := Rescan(m, t);
      if r.address.None? then Rest(r, t) else Attempt(r, r.address.value, t)
  }

  function AfterTurns(m: Member, turns: seq<Turn>): Member {
    if turns == [] then m else TakeTurn(AfterTurns(m, turns[..|turns| - 1]), turns[|turns| - 1])
  }

  /** One pass of the loop body, from its variables to its variables. */
  method LoopBody(m: Member, t: Turn) returns (next: Member)
    requires !m.returned
    ensures next == TakeTurn(m, t)
  {
    var address, backoff, trace := m.address, m.backoff, m.trace;
    if t.cancelledBefore {
      return m.(returned := true);
    }
    if address.None? {
      trace := trace + [Rescanned(t.rescan)];
      address := t.rescan;
    }

    if address.Some? {
      if t.connects {
        trace := trace + [Connected(address.value)];
        trace := trace + [Gauge(true)];
        backoff := MIN_RECONNECT_BACKOFF;
        trace := trace + [Polled];
        trace := trace + [Disconnected];
        trace := trace + [Gauge(false)];
        if t.cancelledAfterPoll {
          return Member(address, backoff, m.now, true, trace);
        }
        trace := trace + [Reconnecting];
      } else {
        trace := trace + [ConnectFailed(address.value)];
        trace := trace + [Gauge(false)];
      }
    }

    var from := m.now + t.busy;
    match t.sleep {
      case CutShort(after) =>
        trace := trace + [Slept(backoff, from, from + after, false)];
        return Member(address, backoff, from + after, true, trace);
      case Woke(late) =>
        var to := from + backoff + late;
        trace := trace + [Slept(backoff, from, to, true)];
        return Member(address, NextBackoff(backoff), to, false, trace);
    }
  }

  /** The loop, for as many turns as are given or until it returns. */
  method SuperviseBattery(known: Option<Address>, start: nat, turns: seq<Turn>) returns (m: Member)
    ensures m == AfterTurns(Start(known, start), turns)
  {
    m := Start(known, start);
    var i := 0;
    while i < |turns| && !m.returned
      invariant 0 <= i <= |turns|
      invariant m == AfterTurns(Start(known, start), turns[..i])
    {
      assert turns[..i + 1][..i] == turns[..i];
      m := LoopBody(m, turns[i]);
      i := i + 1;
    }
    if m.returned {
      ReturnedForGood(Start(known, start), turns, i);
    }
    assert turns[..|turns|] == turns;
  }

  lemma {:induction false} ReturnedForGood(m: Member, turns: seq<Turn>, i: nat)
    requires i <= |turns| && AfterTurns(m, turns[..i]).returned
    ensures AfterTurns(m, turns) == AfterTurns(m, turns[..i])
    decreases |turns|
  {
    if i == |turns| {
      assert turns[..i] == turns;
    } else {
      assert turns[..|turns| - 1][..i] == turns[..i];
      ReturnedForGood(m, turns[..|turns| - 1], i);
    }
  }

  // ------------------------------------------------------- the law of traces

  /** What has to come next: after a connection its gauge, the polling, the
      disconnection and the gauge again; after a failed attempt the gauge. */
  datatype Must = Free | RaiseGauge | Poll | Disconnect | LowerGauge

  /** What an observer knows from the events so far. `sleeps` and `tries` count the
      waits and the failed tries since the last connection, `since` is when the
      first of those waits began, and `due` says that a wait must come next. */
  datatype View = View(open: bool, gauge: bool, connects: nat, disconnects: nat, reconnects: nat, sleeps: nat,
                       tries: nat, due: bool, address: Option<Address>, since: nat, clock: nat, over: bool,
                       must: Must)

  function Opening(address: Option<Address>, now: nat): View {
    View(false, false, 0, 0, 0, 0, 0, false, address, now, now, false, Free)
  }

  function Next(e: Event): Must {
    match e
    case Connected(_) => RaiseGauge
    case Gauge(on) => if on then Poll else Free
    case Polled => Disconnect
    case Disconnected => LowerGauge
    case ConnectFailed(_) => LowerGauge
    case _ => Free
  }

  function Observe(v: View, e: Event): View {
    Record(v, e).(must := Next(e))
  }

  function Record(v: View, e: Event): View {
    match e
    case Rescanned(found) =>
      if found.None? then v.(due := true, tries := v.tries + 1) else v.(address := found)
    case ConnectFailed(a) => v.(due := true, tries := v.tries + 1, address := Some(a))
    case Connected(a) => v.(open := true, connects := v.connects + 1, sleeps := 0, tries := 0, address := Some(a))
    case Gauge(on) => v.(gauge := on)
    case Polled => v
    case Disconnected => v.(open := false, disconnects := v.disconnects + 1)
    case Reconnecting => v.(due := true, reconnects := v.reconnects + 1, tries := v.tries + 1)
    case Slept(_, from, to, full) =>
      v.(due := false, sleeps := v.sleeps + 1, since := if v.sleeps == 0 then from else v.since,
         clock := to, over := !full)
  }

  /** The event is the one that has to come, or none has to and it begins something. */
  predicate InTurn(must: Must, e: Event) {
    match must
    case RaiseGauge => e == Gauge(true)
    case Poll => e.Polled?
    case Disconnect => e.Disconnected?
    case LowerGauge => e == Gauge(false)
    case Free => !e.Gauge? && !e.Polled? && !e.Disconnected?
  }

  /** The events that may come next. Every connection runs its whole course, every
      failure or loss is followed by one wait of the closed form before anything is
      tried again, a loss is counted before its wait, and no address other than the
      known one is ever used. */
  predicate MayFollow(v: View, e: Event) {
    !v.over && InTurn(v.must, e) &&
    match e
    case Rescanned(_) => !v.open && !v.gauge && !v.due && v.address == None && v.reconnects == v.connects
    case ConnectFailed(a) => !v.open && !v.gauge && !v.due && v.address in {None, Some(a)} && v.reconnects == v.connects
    case Connected(a) => !v.open && !v.gauge && !v.due && v.address in {None, Some(a)} && v.reconnects == v.connects
    case Gauge(on) => if on then v.open && !v.gauge else !v.open
    case Polled => v.open && v.gauge
    case Disconnected => v.open && v.gauge
    case Reconnecting => !v.open && !v.gauge && v.connects == v.reconnects + 1
    case Slept(wait, from, to, full) =>
      && !v.open && !v.gauge && v.due && v.reconnects == v.connects
      && wait == Capped(v.sleeps)
      && v.clock <= from <= to && (full ==> from + wait <= to)
  }

  function Seen(v: View, trace: seq<Event>): View {
    if trace == [] then v else Observe(Seen(v, trace[..|trace| - 1]), trace[|trace| - 1])
  }

  predicate Lawful(v: View, trace: seq<Event>) {
    trace == [] || (Lawful(v, trace[..|trace| - 1]) && MayFollow(Seen(v, trace[..|trace| - 1]), trace[|trace| - 1]))
  }

  lemma LogOne(v: View, trace: seq<Event>, e: Event)
    ensures Lawful(v, trace + [e]) <==> Lawful(v, trace) && MayFollow(Seen(v, trace), e)
    ensures Seen(v, trace + [e]) == Observe(Seen(v, trace), e)
  {
    assert (trace + [e])[..|trace|] == trace;
  }

  /** In a lawful trace every event may follow what came before it. */
  lemma {:induction false} LawfulAt(v: View, trace: seq<Event>, i: nat)
    requires Lawful(v, trace) && i < |trace|
    ensures Lawful(v, trace[..i]) && MayFollow(Seen(v, trace[..i]), trace[i])
    ensures Seen(v, trace[..i + 1]) == Observe(Seen(v, trace[..i]), trace[i])
  {
    var n := |trace| - 1;
    if i < n {
      LawfulAt(v, trace[..n], i);
      assert trace[..n][..i] == trace[..i] && trace[..n][..i + 1] == trace[..i + 1];
    } else {
      assert trace[..i + 1] == trace;
    }
  }

  /** Between turns: nothing open, nothing due, and the variables say what the
      trace says. */
  predicate Resting(s: View, address: Option<Address>, backoff: nat, now: nat, returned: bool) {
    && !s.open && !s.gauge && s.connects == s.disconnects && s.must == Free
    && (returned ==> !s.due)
    && (!returned ==> !s.over && !s.due && s.reconnects == s.connects && backoff == Capped(s.sleeps))
    && address == s.address && s.clock <= now
  }

  /** Before the wait that ends a turn. */
  predicate Waiting(s: View, address: Option<Address>, backoff: nat, now: nat) {
    && !s.open && !s.gauge && s.connects == s.disconnects == s.reconnects && s.must == Free
    && !s.over && s.due && backoff == Capped(s.sleeps)
    && address == s.address && s.clock <= now
  }

  ghost predicate AtRest(v: View, m: Member) {
    Lawful(v, m.trace) && Resting(Seen(v, m.trace), m.address, m.backoff, m.now, m.returned)
  }

  ghost predicate BeforeRest(v: View, m: Member) {
    !m.returned && Lawful(v, m.trace) && Waiting(Seen(v, m.trace), m.address, m.backoff, m.now)
  }

  lemma SleepMayFollow(s: View, address: Option<Address>, backoff: nat, now: nat, from: nat, to: nat, full: bool)
    requires Waiting(s, address, backoff, now) && now <= from <= to && (full ==> from + backoff <= to)
    ensures MayFollow(s, Slept(backoff, from, to, full))
    ensures Resting(Observe(s, Slept(backoff, from, to, full)), address, NextBackoff(backoff), to, !full)
  {
    NextIsCapped(s.sleeps);
  }

  lemma WaitKeeps(v: View, m: Member, from: nat, to: nat, full: bool, next: nat)
    requires BeforeRest(v, m) && m.now <= from <= to
    requires full ==> from + m.backoff <= to && next == NextBackoff(m.backoff)
    ensures AtRest(v, Log(m, Slept(m.backoff, from, to, full)).(backoff := next, now := to, returned := !full))
  {
    SleepMayFollow(Seen(v, m.trace), m.address, m.backoff, m.now, from, to, full);
    LogOne(v, m.trace, Slept(m.backoff, from, to, full));
  }

  lemma RestKeeps(v: View, m: Member, t: Turn)
    requires BeforeRest(v, m)
    ensures AtRest(v, Rest(m, t))
  {
    var from := m.now + t.busy;
    var full := t.sleep.Woke?;
    var to := if full then from + m.backoff + t.sleep.late else from + t.sleep.after;
    var next := if full then NextBackoff(m.backoff) else m.backoff;
    assert Rest(m, t) == Log(m, Slept(m.backoff, from, to, full)).(backoff := next, now := to, returned := !full);
    WaitKeeps(v, m, from, to, full, next);
  }

  lemma FailedAttempt(v: View, m: Member, a: Address)
    requires AtRest(v, m) && !m.returned && m.address == Some(a)
    ensures BeforeRest(v, Log(Log(m, ConnectFailed(a)), Gauge(false)))
  {
    LogOne(v, m.trace, ConnectFailed(a));
    LogOne(v, m.trace + [ConnectFailed(a)], Gauge(false));
  }

  /** The course of a connection, as the observer sees it. */
  lemma Course(s: View, a: Address)
    requires Resting(s, Some(a), Capped(s.sleeps), s.clock, false)
    ensures MayFollow(s, Connected(a))
    ensures var s1 := Observe(s, Connected(a));
            MayFollow(s1, Gauge(true)) &&
            var s2 := Observe(s1, Gauge(true));
            MayFollow(s2, Polled) &&
            var s3 := Observe(s2, Polled);
            MayFollow(s3, Disconnected) &&
            var s4 := Observe(s3, Disconnected);
            MayFollow(s4, Gauge(false)) &&
            var s5 := Observe(s4, Gauge(false));
            && s5 == s.(connects := s.connects + 1, disconnects := s.disconnects + 1, sleeps := 0, tries := 0)
            && MayFollow(s5, Reconnecting)
  {
  }

  lemma Connection(v: View, m: Member, a: Address)
    requires AtRest(v, m) && !m.returned && m.address == Some(a)
    ensures var up := Log(Log(m, Connected(a)), Gauge(true)).(backoff := MIN_RECONNECT_BACKOFF);
            var down := Log(Log(Log(up, Polled), Disconnected), Gauge(false));
            AtRest(v, down.(returned := true)) && BeforeRest(v, Log(down, Reconnecting))
  {
    NextIsCapped(0);
    Course(Seen(v, m.trace), a);
    var t1 := m.trace + [Connected(a)];
    var t2 := t1 + [Gauge(true)];
    var t3 := t2 + [Polled];
    var t4 := t3 + [Disconnected];
    var t5 := t4 + [Gauge(false)];
    LogOne(v, m.trace, Connected(a));
    LogOne(v, t1, Gauge(true));
    LogOne(v, t2, Polled);
    LogOne(v, t3, Disconnected);
    LogOne(v, t4, Gauge(false));
    LogOne(v, t5, Reconnecting);
  }

  lemma RescanKeeps(v: View, m: Member, t: Turn)
    requires AtRest(v, m) && !m.returned
    ensures var r := Rescan(m, t);
            !r.returned && if r.address.None? then BeforeRest(v, r) else AtRest(v, r)
  {
    if m.address.None? {
      LogOne(v, m.trace, Rescanned(t.rescan));
    }
  }

  lemma TurnKeeps(v: View, m: Member, t: Turn)
    requires AtRest(v, m)
    ensures AtRest(v, TakeTurn(m, t))
  {
    if !m.returned && !t.cancelledBefore {
      RescanKeeps(v, m, t);
      var r := Rescan(m, t);
      if r.address.None? {
        RestKeeps(v, r, t);
      } else {
        var a := r.address.value;
        if t.connects {
          Connection(v, r, a);
          if !t.cancelledAfterPoll {
            var up := Log(Log(r, Connected(a)), Gauge(true)).(backoff := MIN_RECONNECT_BACKOFF);
            var down := Log(Log(Log(up, Polled), Disconnected), Gauge(false));
            RestKeeps(v, Log(down, Reconnecting), t);
          }
        } else {
          FailedAttempt(v, r, a);
          RestKeeps(v, Log(Log(r, ConnectFailed(a)), Gauge(false)), t);
        }
      }
    }
  }

  /** Every run of a supervisor obeys the law, and leaves nothing connected and
      the gauge at zero whenever it is between turns or has returned. */
  lemma {:induction false} SupervisorLawful(address: Option<Address>, start: nat, turns: seq<Turn>)
    ensures AtRest(Opening(address, start), AfterTurns(Start(address, start), turns))
  {
    if turns == [] {
      NextIsCapped(0);
    } else {
      SupervisorLawful(address, start, turns[..|turns| - 1]);
      TurnKeeps(Opening(address, start), AfterTurns(Start(address, start), turns[..|turns| - 1]), turns[|turns| - 1]);
    }
  }

  // ------------------------------------------------ what a turn does to a run

  /** In this turn an address is at hand once the rescan, if any, is done. */
  predicate Knows(m: Member, t: Turn) {
    m.address.Some? || t.rescan.Some?
  }

  /** What a turn that was not cancelled beforehand leaves behind. */
  ghost predicate Tells(v: View, m: Member, t: Turn, m': Member) {
    var connected := Knows(m, t) && t.connects;
    && Seen(v, m'.trace).connects == Seen(v, m.trace).connects + One(connected)
    && Seen(v, m'.trace).reconnects == Seen(v, m.trace).reconnects + One(connected && !t.cancelledAfterPoll)
    && m'.address == (if m.address.Some? then m.address else t.rescan)
    && (m'.returned <==> if connected && t.cancelledAfterPoll then true else t.sleep.CutShort?)
    && m.trace < m'.trace
    && (m'.trace[|m'.trace| - 1].Slept? <==> !(connected && t.cancelledAfterPoll))
  }

  /** The trace records what really happened: a turn connects exactly when it has an
      address and the connection is made, counts a loss exactly when that connection
      ends without cancellation, adopts the address its rescan found, ends with a
      wait unless it ended with the connection, and ends the run exactly when it
      saw the cancellation. */
  lemma TurnTells(v: View, m: Member, t: Turn)
    requires !m.returned
    ensures if t.cancelledBefore then TakeTurn(m, t) == m.(returned := true) else Tells(v, m, t, TakeTurn(m, t))
  {
    if !t.cancelledBefore {
      RescanTells(v, m, t);
      var r := Rescan(m, t);
      if Knows(m, t) {
        AttemptTells(v, r, r.address.value, t);
      } else {
        RestTells(v, r, t);
      }
    }
  }

  /** A turn's wait begins when the turn's other work is done, and lasts its time and
      the lateness of waking, or until it is cut short; the clock is then its end. */
  lemma TurnTakesTime(m: Member, t: Turn)
    requires !m.returned && !t.cancelledBefore
    ensures var m' := TakeTurn(m, t);
            if Knows(m, t) && t.connects && t.cancelledAfterPoll then m'.now == m.now
            else
              && m'.trace != [] && m'.trace[|m'.trace| - 1].Slept?
              && var e := m'.trace[|m'.trace| - 1];
                 && e.from == m.now + t.busy && e.to == m'.now && (e.full <==> t.sleep.Woke?)
                 && e.to - e.from == if t.sleep.Woke? then e.wait + t.sleep.late else t.sleep.after
  {
  }

  lemma AttemptTells(v: View, m: Member, a: Address, t: Turn)
    requires !m.returned && m.address == Some(a)
    ensures Tells(v, m, t, Attempt(m, a, t))
  {
    if t.connects {
      ConnectedTells(v, m, a, t);
    } else {
      FailureTells(v, m, a);
      RestTells(v, Log(Log(m, ConnectFailed(a)), Gauge(false)), t);
    }
  }

  lemma ConnectedTells(v: View, m: Member, a: Address, t: Turn)
    requires !m.returned && m.address == Some(a) && t.connects
    ensures Tells(v, m, t, Attempt(m, a, t))
  {
    ConnectionTells(v, m, a);
    if !t.cancelledAfterPoll {
      var up := Log(Log(m, Connected(a)), Gauge(true)).(backoff := MIN_RECONNECT_BACKOFF);
      var down := Log(Log(Log(up, Polled), Disconnected), Gauge(false));
      RestTells(v, Log(down, Reconnecting), t);
    }
  }

  lemma FailureTells(v: View, m: Member, a: Address)
    ensures var f := Log(Log(m, ConnectFailed(a)), Gauge(false));
            && Seen(v, f.trace).connects == Seen(v, m.trace).connects
            && Seen(v, f.trace).reconnects == Seen(v, m.trace).reconnects
            && m.trace < f.trace
  {
    LogCounts(v, m.trace, ConnectFailed(a));
    LogCounts(v, m.trace + [ConnectFailed(a)], Gauge(false));
  }

  lemma ObserveCounts(s: View, e: Event)
    ensures Observe(s, e).connects == s.connects + One(e.Connected?)
    ensures Observe(s, e).reconnects == s.reconnects + One(e.Reconnecting?)
  {
  }

  /** What one more event adds to the two counters. */
  lemma LogCounts(v: View, trace: seq<Event>, e: Event)
    ensures Seen(v, trace + [e]).connects == Seen(v, trace).connects + One(e.Connected?)
    ensures Seen(v, trace + [e]).reconnects == Seen(v, trace).reconnects + One(e.Reconnecting?)
  {
    ObserveCounts(Seen(v, trace), e);
    LogOne(v, trace, e);
  }

  lemma RescanTells(v: View, m: Member, t: Turn)
    ensures Seen(v, Rescan(m, t).trace).connects == Seen(v, m.trace).connects
    ensures Seen(v, Rescan(m, t).trace).reconnects == Seen(v, m.trace).reconnects
    ensures m.trace <= Rescan(m, t).trace
  {
    LogCounts(v, m.trace, Rescanned(t.rescan));
  }

  lemma RestTells(v: View, m: Member, t: Turn)
    ensures var m' := Rest(m, t);
            && Seen(v, m'.trace).connects == Seen(v, m.trace).connects
            && Seen(v, m'.trace).reconnects == Seen(v, m.trace).reconnects
            && m'.address == m.address
            && (m'.returned <==> m.returned || t.sleep.CutShort?)
            && m.trace < m'.trace && m'.trace[|m'.trace| - 1].Slept?
  {
    var from := m.now + t.busy;
    var full := t.sleep.Woke?;
    var e := Slept(m.backoff, from, if full then from + m.backoff + t.sleep.late else from + t.sleep.after, full);
    assert Rest(m, t).trace == m.trace + [e];
    LogCounts(v, m.trace, e);
  }

  lemma ConnectionTells(v: View, m: Member, a: Address)
    ensures var up := Log(Log(m, Connected(a)), Gauge(true)).(backoff := MIN_RECONNECT_BACKOFF);
            var down := Log(Log(Log(up, Polled), Disconnected), Gauge(false));
            var lost := Log(down, Reconnecting);
            && Seen(v, down.trace).connects == Seen(v, lost.trace).connects == Seen(v, m.trace).connects + 1
            && Seen(v, down.trace).reconnects + 1 == Seen(v, lost.trace).reconnects == Seen(v, m.trace).reconnects + 1
            && m.trace < down.trace < lost.trace
            && down.trace[|down.trace| - 1] == Gauge(false)
  {
    var t1 := m.trace + [Connected(a)];
    var t2 := t1 + [Gauge(true)];
    var t3 := t2 + [Polled];
    var t4 := t3 + [Disconnected];
    LogCounts(v, m.trace, Connected(a));
    LogCounts(v, t1, Gauge(true));
    LogCounts(v, t2, Polled);
    LogCounts(v, t3, Disconnected);
    LogCounts(v, t4, Gauge(false));
    LogCounts(v, t4 + [Gauge(false)], Reconnecting);
  }
}

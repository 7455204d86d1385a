/** What every run of a battery's supervisor does, read off its trace. */
module SupervisorRuns {
  import opened Prelude
  import opened Bluetooth
  import opened Backoff
  import opened Tallies
  import opened Supervisor

  /** What a supervisor has done after some turns. */
  function Run(address: Option<Address>, start: nat, turns: seq<Turn>): seq<Event> {
    AfterTurns(Start(address, start), turns).trace
  }

  // ------------------------------------------------------- reading a trace

  datatype Mark = Connects | Disconnects | Reconnects

  predicate Marks(e: Event, k: Mark) {
    match k
    case Connects => e.Connected?
    case Disconnects => e.Disconnected?
    case Reconnects => e.Reconnecting?
  }

  function Occurrences(trace: seq<Event>, k: Mark): nat {
    if trace == [] then 0
    else Occurrences(trace[..|trace| - 1], k) + One(Marks(trace[|trace| - 1], k))
  }

  /** The last connection is not undone yet. */
  predicate Open(trace: seq<Event>) {
    trace != [] &&
    match trace[|trace| - 1]
    case Connected(_) => true
    case Disconnected => false
    case _ => Open(trace[..|trace| - 1])
  }

  /** What the gauge shows. */
  predicate GaugeOn(trace: seq<Event>) {
    trace != [] &&
    match trace[|trace| - 1]
    case Gauge(on) => on
    case _ => GaugeOn(trace[..|trace| - 1])
  }

  /** The last connection has not been counted as lost. */
  predicate Uncounted(trace: seq<Event>) {
    trace != [] &&
    match trace[|trace| - 1]
    case Connected(_) => true
    case Reconnecting => false
    case _ => Uncounted(trace[..|trace| - 1])
  }

  /** The waits since the last connection, or since the start. */
  function WaitsSince(trace: seq<Event>): nat {
    if trace == [] then 0
    else
      match trace[|trace| - 1]
      case Connected(_) => 0
      case Slept(_, _, _, _) => WaitsSince(trace[..|trace| - 1]) + 1
      case _ => WaitsSince(trace[..|trace| - 1])
  }

  /** A name not found, a connection not made, or one lost. */
  predicate Failure(e: Event) {
    e == Rescanned(None) || e.ConnectFailed? || e.Reconnecting?
  }

  function FailuresSince(trace: seq<Event>): nat {
    if trace == [] || trace[|trace| - 1].Connected? then 0
    else FailuresSince(trace[..|trace| - 1]) + One(Failure(trace[|trace| - 1]))
  }

  /** When the first of the waits since the last connection began. */
  function StreakFrom(trace: seq<Event>): Option<nat> {
    if trace == [] || trace[|trace| - 1].Connected? then None
    else
      var before := StreakFrom(trace[..|trace| - 1]);
      if before.None? && trace[|trace| - 1].Slept? then Some(trace[|trace| - 1].from) else before
  }

  /** When the last wait ended. */
  function LastWake(trace: seq<Event>, start: nat): nat {
    if trace == [] then start
    else if trace[|trace| - 1].Slept? then trace[|trace| - 1].to
    else LastWake(trace[..|trace| - 1], start)
  }

  predicate IsAttempt(e: Event) {
    e.Connected? || e.ConnectFailed?
  }

  // ---------------------------------------- the observer sees what is there

  ghost predicate SeesCounts(s: View, trace: seq<Event>) {
    && s.connects == Occurrences(trace, Connects)
    && s.disconnects == Occurrences(trace, Disconnects)
    && s.reconnects == Occurrences(trace, Reconnects)
    && s.open == Open(trace)
    && s.gauge == GaugeOn(trace)
  }

  ghost predicate SeesStreak(s: View, trace: seq<Event>, start: nat) {
    && s.sleeps == WaitsSince(trace)
    && s.tries == FailuresSince(trace)
    && StreakFrom(trace) == (if s.sleeps == 0 then None else Some(s.since))
    && s.clock == LastWake(trace, start)
    && (s.over ==> trace != [] && trace[|trace| - 1].Slept? && !trace[|trace| - 1].full)
  }

  lemma CountsSeen(s: View, trace: seq<Event>, e: Event)
    requires SeesCounts(s, trace)
    ensures SeesCounts(Observe(s, e), trace + [e])
  {
    assert (trace + [e])[..|trace|] == trace;
  }

  lemma StreakSeen(s: View, trace: seq<Event>, e: Event, start: nat)
    requires SeesStreak(s, trace, start) && !s.over
    ensures SeesStreak(Observe(s, e), trace + [e], start)
  {
    assert (trace + [e])[..|trace|] == trace;
  }

  lemma {:induction false} ViewSees(address: Option<Address>, start: nat, trace: seq<Event>)
    requires Lawful(Opening(address, start), trace)
    ensures SeesCounts(Seen(Opening(address, start), trace), trace)
    ensures SeesStreak(Seen(Opening(address, start), trace), trace, start)
  {
    if trace != [] {
      var n := |trace| - 1;
      var s := Seen(Opening(address, start), trace[..n]);
      ViewSees(address, start, trace[..n]);
      CountsSeen(s, trace[..n], trace[n]);
      StreakSeen(s, trace[..n], trace[n], start);
      assert trace == trace[..n] + [trace[n]];
    }
  }

  /** The observer's view after the first i events of a run. */
  function ViewAt(address: Option<Address>, start: nat, turns: seq<Turn>, i: nat): View
    requires i <= |Run(address, start, turns)|
  {
    Seen(Opening(address, start), Run(address, start, turns)[..i])
  }

  /** The next event is one that may follow. */
  lemma ViewStep(address: Option<Address>, start: nat, turns: seq<Turn>, i: nat)
    requires i < |Run(address, start, turns)|
    ensures var e := Run(address, start, turns)[i];
            && MayFollow(ViewAt(address, start, turns, i), e)
            && ViewAt(address, start, turns, i + 1) == Observe(ViewAt(address, start, turns, i), e)
  {
    SupervisorLawful(address, start, turns);
    LawfulAt(Opening(address, start), Run(address, start, turns), i);
  }

  /** The observer sees what is there, and the next event is one that may follow. */
  lemma RunSees(address: Option<Address>, start: nat, turns: seq<Turn>, i: nat)
    requires i <= |Run(address, start, turns)|
    ensures var trace := Run(address, start, turns);
            && Lawful(Opening(address, start), trace[..i])
            && SeesCounts(ViewAt(address, start, turns, i), trace[..i])
            && SeesStreak(ViewAt(address, start, turns, i), trace[..i], start)
            && (i < |trace| ==>
                  && MayFollow(ViewAt(address, start, turns, i), trace[i])
                  && ViewAt(address, start, turns, i + 1) == Observe(ViewAt(address, start, turns, i), trace[i]))
  {
    var trace := Run(address, start, turns);
    SupervisorLawful(address, start, turns);
    if i < |trace| {
      LawfulAt(Opening(address, start), trace, i);
    } else {
      assert trace[..i] == trace;
    }
    ViewSees(address, start, trace[..i]);
  }

  // ---------------------------------------------------- counters and gauge

  predicate CountsAgree(s: View) {
    && s.connects == s.disconnects + One(s.open)
    && (s.open || s.gauge ==> s.connects == s.reconnects + 1)
    && s.reconnects <= s.connects <= s.reconnects + 1
    && s.tries == s.sleeps + One(s.due)
    && (s.connects == s.reconnects + 1 ==> s.tries == s.sleeps == 0)
  }

  lemma CountsStep(s: View, e: Event)
    requires CountsAgree(s) && MayFollow(s, e)
    ensures CountsAgree(Observe(s, e))
  {
  }

  lemma LossStep(s: View, trace: seq<Event>, e: Event)
    requires MayFollow(s, e) && s.connects == s.reconnects + One(Uncounted(trace))
    ensures Observe(s, e).connects == Observe(s, e).reconnects + One(Uncounted(trace + [e]))
  {
    assert (trace + [e])[..|trace|] == trace;
  }

  lemma {:induction false} ViewCounts(address: Option<Address>, start: nat, turns: seq<Turn>, i: nat)
    requires i <= |Run(address, start, turns)|
    ensures var s := ViewAt(address, start, turns, i);
            CountsAgree(s) && s.connects == s.reconnects + One(Uncounted(Run(address, start, turns)[..i]))
  {
    if i > 0 {
      var trace := Run(address, start, turns);
      ViewCounts(address, start, turns, i - 1);
      ViewStep(address, start, turns, i - 1);
      CountsStep(ViewAt(address, start, turns, i - 1), trace[i - 1]);
      LossStep(ViewAt(address, start, turns, i - 1), trace[..i - 1], trace[i - 1]);
      assert trace[..i] == trace[..i - 1] + [trace[i - 1]];
    }
  }

  /** At every point of every run: each connection but an open one has been undone,
      and each but an uncounted one has been counted as lost. */
  lemma CountsOnEveryPrefix(address: Option<Address>, start: nat, turns: seq<Turn>, i: nat)
    requires i <= |Run(address, start, turns)|
    ensures var t := Run(address, start, turns)[..i];
            && Occurrences(t, Connects) == Occurrences(t, Disconnects) + One(Open(t))
            && Occurrences(t, Connects) == Occurrences(t, Reconnects) + One(Uncounted(t))
  {
    RunSees(address, start, turns, i);
    ViewCounts(address, start, turns, i);
  }

  /** Every connection but the first re-establishes one. */
  function Reestablished(trace: seq<Event>): nat {
    if Occurrences(trace, Connects) == 0 then 0 else Occurrences(trace, Connects) - 1
  }

  /** The reconnect counter is what it is described as exactly before the first
      connection and while the last one has not been counted as lost. */
  lemma ReconnectsAccurateIff(address: Option<Address>, start: nat, turns: seq<Turn>, i: nat)
    requires i <= |Run(address, start, turns)|
    ensures var t := Run(address, start, turns)[..i];
            Occurrences(t, Reconnects) == Reestablished(t) <==> Occurrences(t, Connects) == 0 || Uncounted(t)
  {
    CountsOnEveryPrefix(address, start, turns, i);
  }

  /** One connection, lost: counted as a reconnect though none followed. */
  lemma LossCountedAsReconnect(a: Address, start: nat, busy: nat, late: nat)
    ensures var t := Run(Some(a), start, [Turn(false, None, true, false, busy, Woke(late))]);
            Occurrences(t, Connects) == 1 && Occurrences(t, Reconnects) == 1 && Reestablished(t) == 0
  {
    var turn := Turn(false, None, true, false, busy, Woke(late));
    var m := Start(Some(a), start);
    assert [turn][..0] == [];
    assert AfterTurns(m, [turn]) == TakeTurn(m, turn);
    TurnTells(Opening(Some(a), start), m, turn);
    var t := Run(Some(a), start, [turn]);
    RunSees(Some(a), start, [turn], |t|);
    assert t[..|t|] == t;
  }

  /** The turn makes a connection. */
  predicate MakesConnection(m: Member, t: Turn) {
    !m.returned && !t.cancelledBefore && Knows(m, t) && t.connects
  }

  /** The last connection ended with the context cancelled. */
  predicate LastEndedCancelled(m: Member, turns: seq<Turn>) {
    turns != [] &&
    var init, last := turns[..|turns| - 1], turns[|turns| - 1];
    if MakesConnection(AfterTurns(m, init), last) then last.cancelledAfterPoll else LastEndedCancelled(m, init)
  }

  lemma {:induction false} TurnsCount(address: Option<Address>, start: nat, turns: seq<Turn>)
    ensures var s := Seen(Opening(address, start), Run(address, start, turns));
            s.connects == s.reconnects + One(LastEndedCancelled(Start(address, start), turns))
  {
    if turns != [] {
      var init, last := turns[..|turns| - 1], turns[|turns| - 1];
      var m := AfterTurns(Start(address, start), init);
      TurnsCount(address, start, init);
      if !m.returned {
        SupervisorLawful(address, start, init);
        TurnTells(Opening(address, start), m, last);
      }
    }
  }

  /** Between turns, and at the end, the counter is accurate exactly when nothing
      was connected yet or the last connection ended with the cancellation. */
  lemma AccurateBetweenTurnsIff(address: Option<Address>, start: nat, turns: seq<Turn>)
    ensures var t := Run(address, start, turns);
            Occurrences(t, Reconnects) == Reestablished(t) <==>
            Occurrences(t, Connects) == 0 || LastEndedCancelled(Start(address, start), turns)
  {
    var t := Run(address, start, turns);
    RunSees(address, start, turns, |t|);
    assert t[..|t|] == t;
    TurnsCount(address, start, turns);
  }

  /** The gauge says what is the case except for the one step between a connection
      or disconnection and its update, and never stays at one. */
  lemma GaugeAccurateIff(address: Option<Address>, start: nat, turns: seq<Turn>, i: nat)
    requires i <= |Run(address, start, turns)|
    ensures var t := Run(address, start, turns)[..i];
            GaugeOn(t) == Open(t) <==> t == [] || !(t[i - 1].Connected? || t[i - 1].Disconnected?)
    ensures i == |Run(address, start, turns)| ==>
              !GaugeOn(Run(address, start, turns)) && !Open(Run(address, start, turns))
  {
    var trace := Run(address, start, turns);
    RunSees(address, start, turns, i);
    if i > 0 {
      RunSees(address, start, turns, i - 1);
      NextStates(ViewAt(address, start, turns, i - 1), trace[i - 1]);
    }
    if i == |trace| {
      assert trace[..i] == trace;
      SupervisorLawful(address, start, turns);
    }
  }

  lemma NextStates(s: View, e: Event)
    requires MayFollow(s, e)
    ensures Observe(s, e).gauge == Observe(s, e).open <==> !(e.Connected? || e.Disconnected?)
  {
  }

  // ------------------------------------------------- the course of a connection

  lemma MustNext(address: Option<Address>, start: nat, turns: seq<Turn>, i: nat)
    requires i < |Run(address, start, turns)| && Next(Run(address, start, turns)[i]) != Free
    ensures i + 1 < |Run(address, start, turns)|
    ensures InTurn(Next(Run(address, start, turns)[i]), Run(address, start, turns)[i + 1])
  {
    var trace := Run(address, start, turns);
    RunSees(address, start, turns, i);
    RunSees(address, start, turns, i + 1);
    if i + 1 == |trace| {
      assert trace[..i + 1] == trace;
      SupervisorLawful(address, start, turns);
    }
  }

  /** Every connection runs its whole course: its gauge is raised, it is polled, it is
      disconnected and its gauge lowered, one right after the other; and every failed
      attempt lowers the gauge at once. */
  lemma EveryConnectionPolled(address: Option<Address>, start: nat, turns: seq<Turn>, i: nat)
    requires i < |Run(address, start, turns)|
    ensures var trace := Run(address, start, turns);
            && (trace[i].Connected? ==>
                  i + 4 < |trace| && trace[i + 1..i + 5] == [Gauge(true), Polled, Disconnected, Gauge(false)])
            && (trace[i].ConnectFailed? ==> i + 1 < |trace| && trace[i + 1] == Gauge(false))
  {
    var trace := Run(address, start, turns);
    if trace[i].Connected? {
      MustNext(address, start, turns, i);
      MustNext(address, start, turns, i + 1);
      MustNext(address, start, turns, i + 2);
      MustNext(address, start, turns, i + 3);
    } else if trace[i].ConnectFailed? {
      MustNext(address, start, turns, i);
    }
  }

  lemma CameFrom(address: Option<Address>, start: nat, turns: seq<Turn>, i: nat)
    requires i < |Run(address, start, turns)|
    ensures var trace := Run(address, start, turns);
            && (trace[i] == Gauge(true) ==> i > 0 && trace[i - 1].Connected?)
            && (trace[i].Polled? ==> i > 0 && trace[i - 1] == Gauge(true))
            && (trace[i].Disconnected? ==> i > 0 && trace[i - 1].Polled?)
  {
    RunSees(address, start, turns, i);
    if i > 0 {
      RunSees(address, start, turns, i - 1);
    } else {
      assert Run(address, start, turns)[..0] == [];
    }
  }

  /** And nothing of this happens outside: the gauge is raised, the connection polled
      and disconnected only in the course of a connection. */
  lemma OnlyConnectionsPolled(address: Option<Address>, start: nat, turns: seq<Turn>, i: nat)
    requires i < |Run(address, start, turns)|
    ensures var trace := Run(address, start, turns);
            && (trace[i] == Gauge(true) ==> i > 0 && trace[i - 1].Connected?)
            && (trace[i].Polled? ==> i > 1 && trace[i - 2].Connected?)
            && (trace[i].Disconnected? ==> i > 2 && trace[i - 3].Connected?)
  {
    CameFrom(address, start, turns, i);
    if i > 0 { CameFrom(address, start, turns, i - 1); }
    if i > 1 { CameFrom(address, start, turns, i - 2); }
  }

  lemma UncountedAfter(address: Option<Address>, start: nat, turns: seq<Turn>, i: nat)
    requires i < |Run(address, start, turns)| && Run(address, start, turns)[i].Connected?
    ensures i + 5 <= |Run(address, start, turns)|
    ensures var s := ViewAt(address, start, turns, i + 5); s.must == Free && s.connects == s.reconnects + 1
  {
    EveryConnectionPolled(address, start, turns, i);
    var trace := Run(address, start, turns);
    var course := trace[i + 1..i + 5];
    assert trace[i + 1] == course[0] && trace[i + 2] == course[1] && trace[i + 3] == course[2];
    assert trace[i + 4] == course[3];
    RunSees(address, start, turns, i);
    RunSees(address, start, turns, i + 1);
    RunSees(address, start, turns, i + 2);
    RunSees(address, start, turns, i + 3);
    RunSees(address, start, turns, i + 4);
  }

  /** Where a wait is due the run goes on, and with the wait. */
  lemma DueMeansWait(address: Option<Address>, start: nat, turns: seq<Turn>, i: nat)
    requires i <= |Run(address, start, turns)|
    requires var s := ViewAt(address, start, turns, i); s.must == Free && s.due && s.connects == s.reconnects
    ensures i < |Run(address, start, turns)| && Run(address, start, turns)[i].Slept?
  {
    var trace := Run(address, start, turns);
    RunSees(address, start, turns, i);
    if i == |trace| {
      assert trace[..i] == trace;
      SupervisorLawful(address, start, turns);
    }
  }

  /** A loss is counted right after its connection, unless the run ends with it; and
      every failure, a name not found, an attempt failed or a loss, is followed by one
      wait before anything else is tried. */
  lemma EveryFailureWaits(address: Option<Address>, start: nat, turns: seq<Turn>, i: nat)
    requires i < |Run(address, start, turns)|
    ensures var trace := Run(address, start, turns);
            && (trace[i].Connected? && i + 5 < |trace| ==> trace[i + 5].Reconnecting?)
            && (trace[i] == Rescanned(None) ==> i + 1 < |trace| && trace[i + 1].Slept?)
            && (trace[i].ConnectFailed? ==> i + 2 < |trace| && trace[i + 2].Slept?)
            && (trace[i].Reconnecting? ==> i + 1 < |trace| && trace[i + 1].Slept?)
  {
    var trace := Run(address, start, turns);
    RunSees(address, start, turns, i);
    if trace[i].Connected? {
      UncountedAfter(address, start, turns, i);
      RunSees(address, start, turns, i + 5);
    } else if trace[i].ConnectFailed? {
      EveryConnectionPolled(address, start, turns, i);
      RunSees(address, start, turns, i + 1);
      DueMeansWait(address, start, turns, i + 2);
    } else if Failure(trace[i]) {
      DueMeansWait(address, start, turns, i + 1);
    }
  }

  // ------------------------------------------------------------- pairing

  lemma OccurrencesStep(trace: seq<Event>, i: nat, j: nat, k: Mark)
    requires i < j <= |trace|
    ensures Occurrences(trace[i..j], k) == Occurrences(trace[i..j - 1], k) + One(Marks(trace[j - 1], k))
  {
    assert trace[i..j][..j - 1 - i] == trace[i..j - 1];
  }

  lemma {:induction false} OccurrencesBetween(trace: seq<Event>, i: nat, j: nat, k: Mark)
    requires i <= j <= |trace|
    ensures Occurrences(trace[..j], k) == Occurrences(trace[..i], k) + Occurrences(trace[i..j], k)
    decreases j
  {
    if i == j {
      assert trace[i..j] == [];
    } else {
      OccurrencesBetween(trace, i, j - 1, k);
      OccurrencesStep(trace, i, j, k);
      assert trace[..j][..j - 1] == trace[..j - 1];
    }
  }

  /** Nothing is connected before an attempt, and nothing at the end. */
  lemma ClosedAtAttempt(address: Option<Address>, start: nat, turns: seq<Turn>, i: nat)
    requires var trace := Run(address, start, turns); i <= |trace| && (i < |trace| ==> IsAttempt(trace[i]))
    ensures var t := Run(address, start, turns)[..i]; Occurrences(t, Connects) == Occurrences(t, Disconnects)
  {
    CountsOnEveryPrefix(address, start, turns, i);
    RunSees(address, start, turns, i);
    GaugeAccurateIff(address, start, turns, i);
    var trace := Run(address, start, turns);
    assert i == |trace| ==> trace[..i] == trace;
  }

  /** Each successful connection is undone exactly once before the next attempt:
      from one attempt to any later one, or to the end of a run at rest, there are
      as many disconnections as connections. */
  lemma ConnectsPaired(address: Option<Address>, start: nat, turns: seq<Turn>, i: nat, j: nat)
    requires var trace := Run(address, start, turns);
             i <= j <= |trace| && (i < |trace| ==> IsAttempt(trace[i])) && (j < |trace| ==> IsAttempt(trace[j]))
    ensures var trace := Run(address, start, turns);
            Occurrences(trace[i..j], Connects) == Occurrences(trace[i..j], Disconnects)
  {
    var trace := Run(address, start, turns);
    ClosedAtAttempt(address, start, turns, i);
    ClosedAtAttempt(address, start, turns, j);
    OccurrencesBetween(trace, i, j, Connects);
    OccurrencesBetween(trace, i, j, Disconnects);
  }

  // ------------------------------------------------------------- addresses

  lemma {:induction false} AddressKept(v: View, trace: seq<Event>, i: nat, j: nat)
    requires Lawful(v, trace) && i <= j <= |trace| && Seen(v, trace[..i]).address.Some?
    ensures Seen(v, trace[..j]).address == Seen(v, trace[..i]).address
    ensures j < |trace| ==> !trace[j].Rescanned?
    decreases j
  {
    if i < j {
      AddressKept(v, trace, i, j - 1);
      LawfulAt(v, trace, j - 1);
    }
    if j < |trace| { LawfulAt(v, trace, j); }
  }

  /** The event shows that the address is known. */
  predicate ShowsAddress(e: Event) {
    IsAttempt(e) || (e.Rescanned? && e.found.Some?)
  }

  /** A supervisor only ever tries one address: the one it was started with, or the
      one its first successful rescan found. Once it is known there is no rescan. */
  lemma AddressFixed(address: Option<Address>, start: nat, turns: seq<Turn>, i: nat)
    requires i < |Run(address, start, turns)|
    ensures var trace, known := Run(address, start, turns), AfterTurns(Start(address, start), turns).address;
            && (IsAttempt(trace[i]) ==> known == Some(trace[i].address))
            && (trace[i].Rescanned? && trace[i].found.Some? ==> known == trace[i].found)
            && (ShowsAddress(trace[i]) ==> forall j | i < j < |trace| :: !trace[j].Rescanned?)
            && (address.Some? ==> known == address && !trace[i].Rescanned?)
  {
    var trace, v := Run(address, start, turns), Opening(address, start);
    SupervisorLawful(address, start, turns);
    assert trace[..|trace|] == trace && trace[..0] == [];
    LawfulAt(v, trace, i);
    if ShowsAddress(trace[i]) {
      AddressKept(v, trace, i + 1, |trace|);
      forall j | i < j < |trace| ensures !trace[j].Rescanned? {
        AddressKept(v, trace, i + 1, j);
      }
    }
    if address.Some? {
      AddressKept(v, trace, 0, i);
      AddressKept(v, trace, 0, |trace|);
    }
  }

  // ----------------------------------------------------------------- waits

  /** The k-th wait since the start, or since the last connection, is the closed
      form, retries for an unresolved name included. */
  lemma WaitsFollowClosedForm(address: Option<Address>, start: nat, turns: seq<Turn>, i: nat)
    requires i < |Run(address, start, turns)| && Run(address, start, turns)[i].Slept?
    ensures Run(address, start, turns)[i].wait == Capped(WaitsSince(Run(address, start, turns)[..i]))
  {
    RunSees(address, start, turns, i);
  }

  /** The waits since the last connection have taken no less than their sum. */
  predicate TimeTaken(s: View) {
    s.sleeps > 0 && !s.over ==> s.clock - s.since >= WaitSum(s.sleeps)
  }

  lemma TimeStep(s: View, e: Event)
    requires TimeTaken(s) && MayFollow(s, e)
    ensures TimeTaken(Observe(s, e))
  {
  }

  lemma {:induction false} TimeOnEveryPrefix(address: Option<Address>, start: nat, turns: seq<Turn>, i: nat)
    requires i <= |Run(address, start, turns)|
    ensures TimeTaken(ViewAt(address, start, turns, i))
  {
    if i > 0 {
      TimeOnEveryPrefix(address, start, turns, i - 1);
      ViewStep(address, start, turns, i - 1);
      TimeStep(ViewAt(address, start, turns, i - 1), Run(address, start, turns)[i - 1]);
    }
  }

  /** The last thing that happened is a wait that was cut short. */
  predicate CutShortLast(trace: seq<Event>) {
    trace != [] && trace[|trace| - 1].Slept? && !trace[|trace| - 1].full
  }

  lemma SumTakesTime(n: nat, time: int)
    requires time >= WaitSum(n)
    ensures n <= 6 ==> time >= Seconds(5 * (Pow2(n) - 1))
    ensures n >= 6 ==> time >= Seconds(315 + 300 * (n - 6))
  {
    WaitSumClosedForm(n);
  }

  /** From the first wait of a streak without a connection to the end of its n-th at
      least 5(2^n - 1) seconds pass for n up to six, and 315 + 300(n - 6) beyond. */
  lemma StreakTakesTime(address: Option<Address>, start: nat, turns: seq<Turn>, i: nat)
    requires i <= |Run(address, start, turns)|
    requires StreakFrom(Run(address, start, turns)[..i]).Some? && !CutShortLast(Run(address, start, turns)[..i])
    ensures var t := Run(address, start, turns)[..i];
            var n, time := WaitsSince(t), LastWake(t, start) - StreakFrom(t).value;
            && n > 0
            && (n <= 6 ==> time >= Seconds(5 * (Pow2(n) - 1)))
            && (n >= 6 ==> time >= Seconds(315 + 300 * (n - 6)))
  {
    RunSees(address, start, turns, i);
    TimeOnEveryPrefix(address, start, turns, i);
    var t := Run(address, start, turns)[..i];
    SumTakesTime(WaitsSince(t), LastWake(t, start) - StreakFrom(t).value);
  }

  /** A streak that has lasted for a time, counted from its first wait, holds at most
      one failure more than the waits that fit in that time: the backoff bounds how
      often a battery that is away is tried. */
  lemma FewTriesInStreak(address: Option<Address>, start: nat, turns: seq<Turn>, i: nat, time: nat)
    requires i <= |Run(address, start, turns)| && !CutShortLast(Run(address, start, turns)[..i])
    requires var t := Run(address, start, turns)[..i];
             StreakFrom(t).Some? ==> LastWake(t, start) <= StreakFrom(t).value + time
    ensures FailuresSince(Run(address, start, turns)[..i]) <= WaitsWithin(time) + 1
  {
    RunSees(address, start, turns, i);
    ViewCounts(address, start, turns, i);
    TimeOnEveryPrefix(address, start, turns, i);
    WaitsThatFit(ViewAt(address, start, turns, i).sleeps, time);
  }

  // ---------------------------------------------------------------- the end

  /** The answer that decides whether this turn returns is a cancellation: the one
      at the head of the loop, the one after the polling, or the wait's. */
  predicate HearsCancellation(m: Member, t: Turn) {
    t.cancelledBefore || (Knows(m, t) && t.connects && t.cancelledAfterPoll) || t.sleep.CutShort?
  }

  lemma TurnReturnsIff(m: Member, t: Turn)
    requires !m.returned
    ensures TakeTurn(m, t).returned <==> HearsCancellation(m, t)
  {
    TurnTells(Opening(m.address, m.now), m, t);
  }

  /** Turn i is the one in which the supervisor returns. */
  ghost predicate ReturnsIn(address: Option<Address>, start: nat, turns: seq<Turn>, i: nat)
    requires i < |turns|
  {
    var m := AfterTurns(Start(address, start), turns[..i]);
    !m.returned && HearsCancellation(m, turns[i])
  }

  lemma {:induction false} ReturnedByTurn(address: Option<Address>, start: nat, turns: seq<Turn>, n: nat)
    requires n <= |turns|
    ensures AfterTurns(Start(address, start), turns[..n]).returned <==>
            exists i | 0 <= i < n :: ReturnsIn(address, start, turns, i)
  {
    if n > 0 {
      var m := AfterTurns(Start(address, start), turns[..n - 1]);
      ReturnedByTurn(address, start, turns, n - 1);
      assert turns[..n][..n - 1] == turns[..n - 1];
      if !m.returned {
        TurnReturnsIff(m, turns[n - 1]);
      }
      assert ReturnsIn(address, start, turns, n - 1) <==> !m.returned && HearsCancellation(m, turns[n - 1]);
    }
  }

  /** A supervisor returns exactly in the first turn that hears of the cancellation:
      it never gives up by itself, and never goes on. */
  lemma ReturnsIffCancelled(address: Option<Address>, start: nat, turns: seq<Turn>)
    ensures AfterTurns(Start(address, start), turns).returned <==>
            exists i | 0 <= i < |turns| :: ReturnsIn(address, start, turns, i)
  {
    ReturnedByTurn(address, start, turns, |turns|);
    assert turns[..|turns|] == turns;
  }
}

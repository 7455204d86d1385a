/**
 All supervisors side by side (Run in internal/litime/manager.go). They share the
 configuration and the radio: whoever has no address yet resolves all batteries
 again, so what one learns could depend on the others. It does so in one way only.
 */
module Fleet {
  import opened Prelude
  import opened Bluetooth
  import opened Batteries
  import opened Resolution
  import opened Supervisor
  import opened SupervisorRuns

  /** One turn by one of the supervisors, with what the scan of its rescan comes
      back with, if it makes one. */
  datatype FleetStep = FleetStep(who: nat, turn: Turn, scan: Scan)

  /** How Run starts them: with the address the first resolution found for their ID,
      if it found one. */
  function StartAll(batteries: seq<Battery>, resolved: map<string, Address>, now: nat): (f: seq<Member>)
    ensures |f| == |batteries|
  {
    seq(|batteries|, i requires 0 <= i < |batteries| => StartOne(batteries[i], resolved, now))
  }

  function StartOne(b: Battery, resolved: map<string, Address>, now: nat): Member {
    Start(if b.id in resolved then Some(resolved[b.id]) else None, now)
  }

  /** Turns in any order, each by one of them. */
  function FleetAfter(f: seq<Member>, steps: seq<FleetStep>): (g: seq<Member>)
    ensures |g| == |f|
  {
    if steps == [] then f
    else
      var before, last := FleetAfter(f, steps[..|steps| - 1]), steps[|steps| - 1];
      if last.who < |f| then before[last.who := TakeTurn(before[last.who], last.turn)] else before
  }

  predicate Rescans(m: Member, t: Turn) {
    !m.returned && !t.cancelledBefore && m.address.None?
  }

  /** A rescan resolves all configured batteries, and the turn goes on with what
      the answer tells this one; an error is as good as nothing. */
  ghost predicate RescanFits(batteries: seq<Battery>, parse: AddressParser, b: Battery, m: Member, s: FleetStep) {
    Rescans(m, s.turn) ==>
      exists told :: Learns(batteries, s.scan, parse, b, told) && s.turn.rescan == AddressIn(told)
  }

  function AddressIn(told: Result<Option<Address>, ()>): Option<Address> {
    match told
    case Ok(address) => address
    case Err(_) => None
  }

  ghost predicate LegalSteps(batteries: seq<Battery>, parse: AddressParser, f: seq<Member>, steps: seq<FleetStep>)
    requires |f| == |batteries|
  {
    steps == [] ||
    var init, last := steps[..|steps| - 1], steps[|steps| - 1];
    && LegalSteps(batteries, parse, f, init)
    && last.who < |batteries|
    && RescanFits(batteries, parse, batteries[last.who], FleetAfter(f, init)[last.who], last)
  }

  /** A run of the manager: a first resolution that succeeds, and then turns of the
      supervisors in any interleaving. */
  ghost predicate ManagerRun(batteries: seq<Battery>, parse: AddressParser, first: Scan,
                             resolved: map<string, Address>, now: nat, steps: seq<FleetStep>)
  {
    && Answers(batteries, first, parse, Ok(resolved))
    && LegalSteps(batteries, parse, StartAll(batteries, resolved, now), steps)
  }

  /** Supervisor i's part of a run, as steps of a manager that has no other. */
  ghost function OwnSteps(batteries: seq<Battery>, steps: seq<FleetStep>, i: nat): seq<FleetStep> {
    if steps == [] then []
    else
      var last := steps[|steps| - 1];
      OwnSteps(batteries, steps[..|steps| - 1], i) +
      if last.who == i then [FleetStep(0, last.turn, Usable(batteries, last.scan))] else []
  }

  lemma AddressStays(m: Member, t: Turn)
    requires m.address.Some?
    ensures TakeTurn(m, t).address == m.address
  {
  }

  lemma {:induction false} FleetAddressStays(f: seq<Member>, steps: seq<FleetStep>, i: nat)
    requires i < |f| && f[i].address.Some?
    ensures FleetAfter(f, steps)[i].address == f[i].address
  {
    if steps != [] {
      var init, last := steps[..|steps| - 1], steps[|steps| - 1];
      FleetAddressStays(f, init, i);
      if last.who == i { AddressStays(FleetAfter(f, init)[i], last.turn); }
    }
  }

  /** A rescan that works finds the battery if exactly one entry of the scan carries its
      name, and then at that entry's address; one that fails, or in which a configured
      name is ambiguous, finds nothing. */
  lemma RescanFinds(batteries: seq<Battery>, parse: AddressParser, b: Battery, m: Member, s: FleetStep)
    requires DistinctIDs(batteries) && b in batteries && b.kind == MatchName && AllParse(batteries, parse)
    requires Rescans(m, s.turn) && RescanFits(batteries, parse, b, m, s)
    ensures s.scan.Err? || SomeAmbiguous(batteries, s.scan.value) ==> s.turn.rescan == None
    ensures s.scan.Ok? && !SomeAmbiguous(batteries, s.scan.value) ==>
              && s.turn.rescan == Locate(b, s.scan.value, parse)
              && forall k: nat | OnlyEntry(s.scan.value, b.value, k) ::
                   s.turn.rescan == Some(s.scan.value[k].address)
  {
    var told :| Learns(batteries, s.scan, parse, b, told) && s.turn.rescan == AddressIn(told);
    if s.scan.Ok? {
      if SomeAmbiguous(batteries, s.scan.value) {
        AmbiguityStopsAll(batteries, s.scan.value, parse, b, told);
      } else {
        LearnsOwnPlace(batteries, s.scan.value, parse, b, told);
        forall k: nat | OnlyEntry(s.scan.value, b.value, k)
          ensures s.turn.rescan == Some(s.scan.value[k].address)
        {
          OnlyEntryIff(s.scan.value, b.value, k);
        }
      }
    }
  }

  /** Any supervisor may take any turn next, over any scan: only what its rescan finds
      is not free. */
  lemma AnyTurnIsPossible(batteries: seq<Battery>, parse: AddressParser, f: seq<Member>, steps: seq<FleetStep>,
                          i: nat, t: Turn, scan: Scan)
    returns (found: Option<Address>)
    requires |f| == |batteries| && LegalSteps(batteries, parse, f, steps) && i < |batteries|
    ensures LegalSteps(batteries, parse, f, steps + [FleetStep(i, t.(rescan := found), scan)])
  {
    var r := AnswerExists(batteries, scan, parse);
    var told := Told(r, batteries[i]);
    found := AddressIn(told);
    assert Learns(batteries, scan, parse, batteries[i], told);
    AppendLegal(batteries, parse, f, steps, FleetStep(i, t.(rescan := found), scan));
  }

  lemma AppendOwn(f: seq<Member>, steps: seq<FleetStep>, s: FleetStep)
    requires s.who < |f|
    ensures FleetAfter(f, steps + [s]) ==
            FleetAfter(f, steps)[s.who := TakeTurn(FleetAfter(f, steps)[s.who], s.turn)]
  {
    assert (steps + [s])[..|steps|] == steps;
  }

  lemma AppendLegal(batteries: seq<Battery>, parse: AddressParser, f: seq<Member>, steps: seq<FleetStep>, s: FleetStep)
    requires |f| == |batteries| && LegalSteps(batteries, parse, f, steps) && s.who < |batteries|
    requires RescanFits(batteries, parse, batteries[s.who], FleetAfter(f, steps)[s.who], s)
    ensures LegalSteps(batteries, parse, f, steps + [s])
  {
    assert (steps + [s])[..|steps|] == steps;
  }

  /** A rescan among others fits a lone manager too, given the usable scan. */
  lemma RescanFitsAlone(batteries: seq<Battery>, parse: AddressParser, b: Battery, m: Member, s: FleetStep)
    requires DistinctIDs(batteries) && b in batteries && AllParse(batteries, parse)
    requires b.kind == MatchName || m.address.Some?
    requires RescanFits(batteries, parse, b, m, s)
    ensures RescanFits([b], parse, b, m, FleetStep(0, s.turn, Usable(batteries, s.scan)))
  {
    if Rescans(m, s.turn) {
      var told :| Learns(batteries, s.scan, parse, b, told) && s.turn.rescan == AddressIn(told);
      LearnsAsIfAlone(batteries, s.scan, parse, b, told);
    }
  }

  lemma OneMoreAlone(batteries: seq<Battery>, parse: AddressParser, b: Battery, start: Member,
                     own: seq<FleetStep>, m: Member, s: FleetStep)
    requires DistinctIDs(batteries) && b in batteries && AllParse(batteries, parse)
    requires b.kind == MatchName || m.address.Some?
    requires LegalSteps([b], parse, [start], own) && FleetAfter([start], own) == [m]
    requires RescanFits(batteries, parse, b, m, s)
    ensures var alone := FleetStep(0, s.turn, Usable(batteries, s.scan));
            && LegalSteps([b], parse, [start], own + [alone])
            && FleetAfter([start], own + [alone]) == [TakeTurn(m, s.turn)]
  {
    var alone := FleetStep(0, s.turn, Usable(batteries, s.scan));
    RescanFitsAlone(batteries, parse, b, m, s);
    AppendOwn([start], own, alone);
    AppendLegal([b], parse, [start], own, alone);
  }

  lemma {:induction false} StepsAsIfAlone(batteries: seq<Battery>, parse: AddressParser, f: seq<Member>,
                                          steps: seq<FleetStep>, i: nat)
    requires |f| == |batteries| && i < |f| && LegalSteps(batteries, parse, f, steps)
    requires DistinctIDs(batteries) && AllParse(batteries, parse)
    requires batteries[i].kind == MatchName || f[i].address.Some?
    ensures LegalSteps([batteries[i]], parse, [f[i]], OwnSteps(batteries, steps, i))
    ensures FleetAfter([f[i]], OwnSteps(batteries, steps, i)) == [FleetAfter(f, steps)[i]]
  {
    if steps != [] {
      var init, last := steps[..|steps| - 1], steps[|steps| - 1];
      StepsAsIfAlone(batteries, parse, f, init, i);
      if last.who == i {
        if f[i].address.Some? { FleetAddressStays(f, init, i); }
        OneMoreAlone(batteries, parse, batteries[i], f[i], OwnSteps(batteries, init, i), FleetAfter(f, init)[i], last);
      } else {
        assert OwnSteps(batteries, steps, i) == OwnSteps(batteries, init, i);
      }
    }
  }

  /** Each battery is supervised as if it were the only one configured: in any
      interleaving its supervisor is where a manager of that battery alone would
      have brought it, with the same scans. The others show in one way only: a scan
      in which a configured name is ambiguous is worth no more than a failed one.
      Whether they are present or absent makes no difference. */
  lemma RunsAsIfAlone(batteries: seq<Battery>, parse: AddressParser, first: Scan, resolved: map<string, Address>,
                      now: nat, steps: seq<FleetStep>, i: nat)
    returns (own: map<string, Address>)
    requires DistinctIDs(batteries) && i < |batteries|
    requires ManagerRun(batteries, parse, first, resolved, now, steps)
    ensures ManagerRun([batteries[i]], parse, first, own, now, OwnSteps(batteries, steps, i))
    ensures FleetAfter(StartAll([batteries[i]], own, now), OwnSteps(batteries, steps, i)) ==
            [FleetAfter(StartAll(batteries, resolved, now), steps)[i]]
  {
    var b, f := batteries[i], StartAll(batteries, resolved, now);
    own := StartsAsIfAlone(batteries, first, parse, b, resolved);
    StartTells(batteries, first, parse, b, resolved);
    assert b.kind == MatchAddress ==> !Unparsable(b, parse);
    StepsAsIfAlone(batteries, parse, f, steps, i);
    assert StartAll([b], own, now) == [f[i]];
  }

  /** Without an ambiguous name in any scan, even the scans are the same. */
  lemma {:induction false} OwnScans(batteries: seq<Battery>, steps: seq<FleetStep>, i: nat)
    requires forall s | s in steps && s.scan.Ok? :: !SomeAmbiguous(batteries, s.scan.value)
    ensures forall s | s in OwnSteps(batteries, steps, i) ::
              exists t | t in steps :: t.who == i && s == FleetStep(0, t.turn, t.scan)
  {
    if steps != [] {
      OwnScans(batteries, steps[..|steps| - 1], i);
    }
  }

  // ---------------------------------------------------------- own address

  /** The scans supervisor i learned from: the first, and those of its rescans. */
  function ScansOf(first: Scan, steps: seq<FleetStep>, i: nat): seq<Scan> {
    if steps == [] then [first]
    else
      ScansOf(first, steps[..|steps| - 1], i) +
      if steps[|steps| - 1].who == i then [steps[|steps| - 1].scan] else []
  }

  ghost predicate LocatedBy(b: Battery, parse: AddressParser, scans: seq<Scan>, a: Address) {
    exists scan | scan in scans :: Locate(b, ScanEntries(scan), parse) == Some(a)
  }

  lemma LocatedByMore(b: Battery, parse: AddressParser, scans: seq<Scan>, more: seq<Scan>, a: Address)
    requires LocatedBy(b, parse, scans, a)
    ensures LocatedBy(b, parse, scans + more, a)
  {
    var scan :| scan in scans && Locate(b, ScanEntries(scan), parse) == Some(a);
    assert scan in scans + more;
  }

  /** A rescan that tells an address tells where the battery is in that scan. */
  lemma LearnsLocation(batteries: seq<Battery>, scan: Scan, parse: AddressParser, b: Battery, a: Address)
    requires DistinctIDs(batteries) && b in batteries
    requires Learns(batteries, scan, parse, b, Ok(Some(a)))
    ensures Locate(b, ScanEntries(scan), parse) == Some(a)
  {
    var r :| Answers(batteries, scan, parse, r) && Ok(Some(a)) == Told(r, b);
    StartTells(batteries, scan, parse, b, r.value);
  }

  lemma {:induction false} AddressLocated(batteries: seq<Battery>, parse: AddressParser, first: Scan,
                                          resolved: map<string, Address>, now: nat, steps: seq<FleetStep>, i: nat)
    requires DistinctIDs(batteries) && i < |batteries|
    requires ManagerRun(batteries, parse, first, resolved, now, steps)
    ensures var m := FleetAfter(StartAll(batteries, resolved, now), steps)[i];
            m.address.Some? ==> LocatedBy(batteries[i], parse, ScansOf(first, steps, i), m.address.value)
  {
    var b, f := batteries[i], StartAll(batteries, resolved, now);
    if steps == [] {
      StartTells(batteries, first, parse, b, resolved);
      assert first in [first];
    } else {
      var init, last := steps[..|steps| - 1], steps[|steps| - 1];
      AddressLocated(batteries, parse, first, resolved, now, init, i);
      var m := FleetAfter(f, init)[i];
      if last.who == i {
        if m.address.Some? {
          AddressStays(m, last.turn);
          LocatedByMore(b, parse, ScansOf(first, init, i), [last.scan], m.address.value);
        } else if Rescans(m, last.turn) && last.turn.rescan.Some? {
          var told :| Learns(batteries, last.scan, parse, b, told) && last.turn.rescan == AddressIn(told);
          LearnsLocation(batteries, last.scan, parse, b, last.turn.rescan.value);
          assert last.scan in ScansOf(first, steps, i);
        }
        AddressAfter(m, last.turn);
      } else {
        assert ScansOf(first, steps, i) == ScansOf(first, init, i);
      }
    }
  }

  lemma AddressAfter(m: Member, t: Turn)
    ensures TakeTurn(m, t).address == if Rescans(m, t) then t.rescan else m.address
  {
  }

  /** The turns supervisor i takes. */
  function OwnTurns(steps: seq<FleetStep>, i: nat): seq<Turn> {
    if steps == [] then []
    else
      OwnTurns(steps[..|steps| - 1], i) +
      if steps[|steps| - 1].who == i then [steps[|steps| - 1].turn] else []
  }

  /** A member of a run is a supervisor after turns of its own, all of them. */
  lemma {:induction false} OwnRun(f: seq<Member>, steps: seq<FleetStep>, i: nat)
    requires i < |f|
    ensures FleetAfter(f, steps)[i] == AfterTurns(f[i], OwnTurns(steps, i))
  {
    if steps != [] {
      var init, last := steps[..|steps| - 1], steps[|steps| - 1];
      var turns := OwnTurns(init, i);
      OwnRun(f, init, i);
      if last.who == i {
        assert (turns + [last.turn])[..|turns|] == turns;
      } else {
        assert OwnTurns(steps, i) == turns;
      }
    }
  }

  /** In any interleaving a supervisor only ever tries the address at which its own
      battery was located, by the first scan or by one of its own rescans; if the
      first scan located it, it never rescans. */
  lemma TriedWhereLocated(batteries: seq<Battery>, parse: AddressParser, first: Scan, resolved: map<string, Address>,
                          now: nat, steps: seq<FleetStep>, i: nat, k: nat)
    requires DistinctIDs(batteries) && i < |batteries|
    requires ManagerRun(batteries, parse, first, resolved, now, steps)
    requires k < |FleetAfter(StartAll(batteries, resolved, now), steps)[i].trace|
    ensures var e := FleetAfter(StartAll(batteries, resolved, now), steps)[i].trace[k];
            var located := Locate(batteries[i], ScanEntries(first), parse);
            && (IsAttempt(e) ==> LocatedBy(batteries[i], parse, ScansOf(first, steps, i), e.address))
            && (located.Some? ==> !e.Rescanned? && (IsAttempt(e) ==> located == Some(e.address)))
  {
    var b, f := batteries[i], StartAll(batteries, resolved, now);
    StartTells(batteries, first, parse, b, resolved);
    OwnRun(f, steps, i);
    AddressLocated(batteries, parse, first, resolved, now, steps, i);
    AddressFixed(f[i].address, now, OwnTurns(steps, i), k);
  }
}

/**
 When two configured batteries can turn out to be one. ParseBatteries means to
 reject two IDs for one battery, which would be supervised and measured twice
 (internal/litime/battery.go); what it compares is the text of the targets. This
 module says for which accepted configurations what is meant holds.
 */
module Ownership {
  import opened Prelude
  import opened Text
  import opened Bluetooth
  import opened Batteries
  import opened Resolution
  import opened Supervisor
  import opened Fleet

  // ------------------------------------------------- what the parser returns

  /** The hypotheses of the fleet's theorems, in terms of the configuration. */
  lemma ParsedBatteries(entries: map<string, string>, parse: AddressParser, batteries: seq<Battery>)
    requires entries != map[] && Parsed(entries, parse, Ok(batteries))
    ensures DistinctIDs(batteries) <==> DistinctTrimmedIDs(entries)
    ensures AllParse(batteries, parse) && DistinctValues(batteries)
  {
    ListedAre(entries, parse, batteries);
    ParsedValuesDistinct(entries, parse, batteries);
    if DistinctIDs(batteries) {
      forall i, j | i in entries && j in entries && TrimSpace(i) == TrimSpace(j) ensures i == j {
        assert Entry(entries, parse, i) == Entry(entries, parse, j);
      }
    }
  }

  /** With distinct trimmed IDs in the configuration, each battery is supervised as
      if it were the only one configured. */
  lemma ConfiguredAsIfAlone(entries: map<string, string>, parse: AddressParser, batteries: seq<Battery>, first: Scan,
                            resolved: map<string, Address>, now: nat, steps: seq<FleetStep>, i: nat)
    returns (own: map<string, Address>)
    requires entries != map[] && Parsed(entries, parse, Ok(batteries)) && DistinctTrimmedIDs(entries)
    requires ManagerRun(batteries, parse, first, resolved, now, steps) && i < |batteries|
    ensures ManagerRun([batteries[i]], parse, first, own, now, OwnSteps(batteries, steps, i))
    ensures FleetAfter(StartAll([batteries[i]], own, now), OwnSteps(batteries, steps, i)) ==
            [FleetAfter(StartAll(batteries, resolved, now), steps)[i]]
  {
    ParsedBatteries(entries, parse, batteries);
    own := RunsAsIfAlone(batteries, parse, first, resolved, now, steps, i);
  }

  // ----------------------------------------------------------- shared devices

  /** No two supervisors know one address. */
  ghost predicate KeptApart(f: seq<Member>) {
    forall i, j | 0 <= i < |f| && 0 <= j < |f| && i != j :: f[i].address.None? || f[i].address != f[j].address
  }

  ghost predicate Advertised(first: Scan, steps: seq<FleetStep>, d: Discovered) {
    d in ScanEntries(first) || exists s | s in steps :: d in ScanEntries(s.scan)
  }

  /** Over all scans of a run every device goes by one name. */
  ghost predicate NamesStable(first: Scan, steps: seq<FleetStep>) {
    forall d, e | Advertised(first, steps, d) && Advertised(first, steps, e) && d.address == e.address ::
      d.name == e.name
  }

  ghost predicate RunOver(batteries: seq<Battery>, parse: AddressParser, stable: bool, first: Scan,
                          resolved: map<string, Address>, now: nat, steps: seq<FleetStep>)
  {
    ManagerRun(batteries, parse, first, resolved, now, steps) && (stable ==> NamesStable(first, steps))
  }

  /** In no run, whatever the interleaving and the scans, do two supervisors ever
      know one address; `stable` restricts the scans to devices of one name. */
  ghost predicate NeverShared(batteries: seq<Battery>, parse: AddressParser, stable: bool) {
    forall first, resolved, now: nat, steps | RunOver(batteries, parse, stable, first, resolved, now, steps) ::
      KeptApart(FleetAfter(StartAll(batteries, resolved, now), steps))
  }

  ghost predicate AllByName(batteries: seq<Battery>) {
    forall b | b in batteries :: b.kind == MatchName
  }

  ghost predicate AllByAddress(batteries: seq<Battery>, parse: AddressParser) {
    && (forall b | b in batteries :: b.kind == MatchAddress)
    && (forall b, c | b in batteries && c in batteries && parse(b.value) == parse(c.value) :: b == c)
  }

  /** The exact condition: distinct IDs, and all batteries by name or all by address,
      each address once. Names only tell batteries apart if devices keep theirs. */
  ghost predicate Separate(batteries: seq<Battery>, parse: AddressParser, stable: bool) {
    && DistinctIDs(batteries)
    && ((AllByName(batteries) && (stable || |batteries| <= 1)) || AllByAddress(batteries, parse))
  }

  lemma {:induction false} MatchIsEntry(devices: seq<Discovered>, name: string, k: nat) returns (d: Discovered)
    requires k < |Matches(devices, name)|
    ensures d in devices && d.name == name && d.address == Matches(devices, name)[k]
  {
    var n := |devices| - 1;
    if k < |Matches(devices[..n], name)| {
      d := MatchIsEntry(devices[..n], name, k);
    } else {
      d := devices[n];
    }
  }

  lemma {:induction false} OwnScanIsScan(first: Scan, steps: seq<FleetStep>, i: nat, scan: Scan, d: Discovered)
    requires scan in ScansOf(first, steps, i) && d in ScanEntries(scan)
    ensures Advertised(first, steps, d)
  {
    if steps != [] {
      var init, last := steps[..|steps| - 1], steps[|steps| - 1];
      if scan in ScansOf(first, init, i) {
        OwnScanIsScan(first, init, i, scan, d);
        assert forall s | s in init :: s in steps;
      } else {
        assert last in steps && scan == last.scan;
      }
    }
  }

  /** A battery located by name was advertised under it at its address. */
  lemma NameAdvertised(b: Battery, parse: AddressParser, first: Scan, steps: seq<FleetStep>, i: nat, a: Address)
    returns (d: Discovered)
    requires b.kind == MatchName && LocatedBy(b, parse, ScansOf(first, steps, i), a)
    ensures Advertised(first, steps, d) && d.name == b.value && d.address == a
  {
    var scan :| scan in ScansOf(first, steps, i) && Locate(b, ScanEntries(scan), parse) == Some(a);
    d := MatchIsEntry(ScanEntries(scan), b.value, 0);
    OwnScanIsScan(first, steps, i, scan, d);
  }

  lemma SeparateStayApart(batteries: seq<Battery>, parse: AddressParser, stable: bool, first: Scan,
                          resolved: map<string, Address>, now: nat, steps: seq<FleetStep>, i: nat, j: nat)
    requires DistinctValues(batteries) && Separate(batteries, parse, stable)
    requires RunOver(batteries, parse, stable, first, resolved, now, steps)
    requires i < j < |batteries|
    ensures var f := FleetAfter(StartAll(batteries, resolved, now), steps);
            f[i].address.None? || f[i].address != f[j].address
  {
    var f, b, c := FleetAfter(StartAll(batteries, resolved, now), steps), batteries[i], batteries[j];
    if f[i].address.Some? && f[i].address == f[j].address {
      var a := f[i].address.value;
      AddressLocated(batteries, parse, first, resolved, now, steps, i);
      AddressLocated(batteries, parse, first, resolved, now, steps, j);
      if !AllByAddress(batteries, parse) {
        var d := NameAdvertised(b, parse, first, steps, i, a);
        var e := NameAdvertised(c, parse, first, steps, j, a);
      }
      assert false;
    }
  }

  lemma AnswerGiven(batteries: seq<Battery>, parse: AddressParser, devices: seq<Discovered>)
    returns (resolved: map<string, Address>)
    requires AllParse(batteries, parse) && !SomeAmbiguous(batteries, devices)
    requires (forall b | b in batteries :: b.kind == MatchAddress) ==> devices == []
    ensures Resolves(batteries, devices, parse, resolved) && Answers(batteries, Ok(devices), parse, Ok(resolved))
  {
    resolved := ResolutionExists(batteries, devices, parse);
  }

  /** A first scan that gives two batteries one address is a run that shares it. */
  lemma SharedFromStart(batteries: seq<Battery>, parse: AddressParser, stable: bool, devices: seq<Discovered>,
                        b: Battery, c: Battery)
    requires AllParse(batteries, parse) && !SomeAmbiguous(batteries, devices)
    requires (forall x | x in batteries :: x.kind == MatchAddress) ==> devices == []
    requires stable ==> NamesStable(Ok(devices), [])
    requires b in batteries && c in batteries && b != c && Locate(b, devices, parse).Some?
    requires b.id == c.id || (DistinctIDs(batteries) && Locate(b, devices, parse) == Locate(c, devices, parse))
    ensures !NeverShared(batteries, parse, stable)
  {
    var resolved := AnswerGiven(batteries, parse, devices);
    var i :| 0 <= i < |batteries| && batteries[i] == b;
    var j :| 0 <= j < |batteries| && batteries[j] == c;
    if b.id != c.id {
      ResolvedExactly(batteries, devices, parse, resolved, b);
      ResolvedExactly(batteries, devices, parse, resolved, c);
    }
    var f := StartAll(batteries, resolved, 0);
    assert RunOver(batteries, parse, stable, Ok(devices), resolved, 0, []);
    assert FleetAfter(f, []) == f && !KeptApart(f) by {
      assert f[i].address == f[j].address == Some(resolved[b.id]);
    }
  }

  function Advert(name: string, a: Address): Discovered {
    Discovered(name, a, map[])
  }

  lemma OneAdvert(batteries: seq<Battery>, name: string, a: Address)
    ensures Matches([Advert(name, a)], name) == [a] && !SomeAmbiguous(batteries, [Advert(name, a)])
    ensures NamesStable(Ok([Advert(name, a)]), [])
  {
    var d := Advert(name, a);
    assert [d][..0] == [];
    forall x ensures |Matches([d], x)| <= 1 {
      assert Matches([d][..0], x) == [];
    }
  }

  lemma NoAdvert(batteries: seq<Battery>)
    ensures !SomeAmbiguous(batteries, []) && NamesStable(Ok([]), [])
  {
  }

  lemma TwoAdverts(batteries: seq<Battery>, m: string, n: string, a: Address)
    requires m != n
    ensures var devices := [Advert(m, a), Advert(n, a)];
            Matches(devices, m) == Matches(devices, n) == [a] && !SomeAmbiguous(batteries, devices)
  {
    var devices := [Advert(m, a), Advert(n, a)];
    assert devices[..1] == [Advert(m, a)];
    OneAdvert(batteries, m, a);
    forall x ensures Matches(devices, x) == (if x == m || x == n then [a] else []) {
      assert [Advert(m, a)][..0] == [];
      assert Matches([Advert(m, a)], x) == if x == m then [a] else [];
    }
  }

  /** Two batteries of one ID share what is resolved for it. */
  lemma SharedID(batteries: seq<Battery>, parse: AddressParser, stable: bool, b: Battery, c: Battery)
    requires AllParse(batteries, parse)
    requires b in batteries && c in batteries && b != c && b.id == c.id
    ensures !NeverShared(batteries, parse, stable)
  {
    if b.kind == MatchName {
      OneAdvert(batteries, b.value, Address(""));
      SharedFromStart(batteries, parse, stable, [Advert(b.value, Address(""))], b, c);
    } else {
      NoAdvert(batteries);
      assert !Unparsable(b, parse);
      SharedFromStart(batteries, parse, stable, [], b, c);
    }
  }

  /** A battery configured by its address and again by its name. */
  lemma SharedByName(batteries: seq<Battery>, parse: AddressParser, stable: bool, b: Battery, c: Battery)
    requires AllParse(batteries, parse) && DistinctIDs(batteries)
    requires b in batteries && c in batteries && b.kind == MatchAddress && c.kind == MatchName
    ensures !NeverShared(batteries, parse, stable)
  {
    assert !Unparsable(b, parse);
    var a := parse(b.value).value;
    OneAdvert(batteries, c.value, a);
    SharedFromStart(batteries, parse, stable, [Advert(c.value, a)], b, c);
  }

  /** A battery configured by two spellings of its address. */
  lemma SharedByAddress(batteries: seq<Battery>, parse: AddressParser, stable: bool, b: Battery, c: Battery)
    requires AllParse(batteries, parse) && DistinctIDs(batteries) && b in batteries && c in batteries && b != c
    requires b.kind == MatchAddress && c.kind == MatchAddress && parse(b.value) == parse(c.value)
    ensures !NeverShared(batteries, parse, stable)
  {
    assert !Unparsable(b, parse);
    NoAdvert(batteries);
    SharedFromStart(batteries, parse, stable, [], b, c);
  }

  /** A device that goes by two names, when that is not ruled out. */
  lemma SharedByRenaming(batteries: seq<Battery>, parse: AddressParser)
    requires AllParse(batteries, parse) && DistinctIDs(batteries) && AllByName(batteries)
    requires DistinctValues(batteries) && |batteries| > 1
    ensures !NeverShared(batteries, parse, false)
  {
    var b, c, a := batteries[0], batteries[1], Address("");
    TwoAdverts(batteries, b.value, c.value, a);
    SharedFromStart(batteries, parse, false, [Advert(b.value, a), Advert(c.value, a)], b, c);
  }

  lemma SeparateNeverShared(batteries: seq<Battery>, parse: AddressParser, stable: bool)
    requires DistinctValues(batteries) && Separate(batteries, parse, stable)
    ensures NeverShared(batteries, parse, stable)
  {
    forall first, resolved, now: nat, steps | RunOver(batteries, parse, stable, first, resolved, now, steps)
      ensures KeptApart(FleetAfter(StartAll(batteries, resolved, now), steps))
    {
      forall i, j | 0 <= i < j < |batteries|
        ensures var f := FleetAfter(StartAll(batteries, resolved, now), steps);
                f[i].address.None? || f[i].address != f[j].address
      {
        SeparateStayApart(batteries, parse, stable, first, resolved, now, steps, i, j);
      }
    }
  }

  /** The ways in which the condition fails. */
  lemma NotSeparate(batteries: seq<Battery>, parse: AddressParser, stable: bool) returns (b: Battery, c: Battery)
    requires !Separate(batteries, parse, stable) && !(AllByName(batteries) && DistinctIDs(batteries))
    ensures b in batteries && c in batteries && b != c
    ensures b.id == c.id ||
            (DistinctIDs(batteries) && b.kind == MatchAddress &&
             (c.kind == MatchName || parse(b.value) == parse(c.value)))
  {
    if !DistinctIDs(batteries) {
      b, c :| b in batteries && c in batteries && b.id == c.id && b != c;
    } else {
      b :| b in batteries && b.kind == MatchAddress;
      if x :| x in batteries && x.kind == MatchName {
        c := x;
      } else {
        b, c :| b in batteries && c in batteries && parse(b.value) == parse(c.value) && b != c;
      }
    }
  }

  /** No two supervisors ever know one address exactly under that condition. */
  lemma NeverSharedIff(batteries: seq<Battery>, parse: AddressParser, stable: bool)
    requires AllParse(batteries, parse) && DistinctValues(batteries)
    ensures NeverShared(batteries, parse, stable) <==> Separate(batteries, parse, stable)
  {
    if Separate(batteries, parse, stable) {
      SeparateNeverShared(batteries, parse, stable);
    } else if AllByName(batteries) && DistinctIDs(batteries) {
      SharedByRenaming(batteries, parse);
    } else {
      var b, c := NotSeparate(batteries, parse, stable);
      if b.id == c.id {
        SharedID(batteries, parse, stable, b, c);
      } else if c.kind == MatchName {
        SharedByName(batteries, parse, stable, b, c);
      } else {
        SharedByAddress(batteries, parse, stable, b, c);
      }
    }
  }

  // ---------------------------------------------------- in the configuration

  ghost predicate NoneParses(entries: map<string, string>, parse: AddressParser) {
    forall id | id in entries :: parse(TrimSpace(entries[id])).None?
  }

  ghost predicate AllParseApart(entries: map<string, string>, parse: AddressParser) {
    && (forall id | id in entries :: parse(TrimSpace(entries[id])).Some?)
    && (forall i, j {:trigger TrimSpace(entries[i]), TrimSpace(entries[j])} |
          i in entries && j in entries && parse(TrimSpace(entries[i])) == parse(TrimSpace(entries[j])) :: i == j)
  }

  /** What can be checked before parsing. */
  ghost predicate SeparateTargets(entries: map<string, string>, parse: AddressParser, stable: bool) {
    && DistinctTrimmedIDs(entries)
    && ((NoneParses(entries, parse) && (stable || |entries| <= 1)) || AllParseApart(entries, parse))
  }

  /** For every accepted configuration: what the check for duplicates is meant to
      prevent, two supervisors driving one battery, is prevented exactly if the
      trimmed IDs are distinct and the targets are all names, or all addresses no two
      of which parse alike. */
  lemma DuplicatesPreventedIff(entries: map<string, string>, parse: AddressParser, batteries: seq<Battery>,
                               stable: bool)
    requires entries != map[] && Parsed(entries, parse, Ok(batteries))
    ensures NeverShared(batteries, parse, stable) <==> SeparateTargets(entries, parse, stable)
  {
    ParsedBatteries(entries, parse, batteries);
    NeverSharedIff(batteries, parse, stable);
    KindsListed(entries, parse, batteries);
  }

  lemma KindsListed(entries: map<string, string>, parse: AddressParser, batteries: seq<Battery>)
    requires entries != map[] && Parsed(entries, parse, Ok(batteries))
    ensures AllByName(batteries) <==> NoneParses(entries, parse)
    ensures AllByAddress(batteries, parse) <==> AllParseApart(entries, parse)
    ensures |batteries| == |entries|
  {
    ListedAre(entries, parse, batteries);
    OneBatteryPerEntry(entries, parse, entries.Keys);
    assert |batteries| == |multiset(batteries)| == |multiset(Entries(entries, parse, entries.Keys))|;
    if AllByAddress(batteries, parse) {
      forall i, j | i in entries && j in entries && parse(TrimSpace(entries[i])) == parse(TrimSpace(entries[j]))
        ensures i == j
      {
        assert Entry(entries, parse, i) == Entry(entries, parse, j);
      }
    }
  }

  /** A configuration of addresses written as they print is such a one. */
  lemma CanonicalAddressesSuffice(entries: map<string, string>, parse: AddressParser, batteries: seq<Battery>,
                                  stable: bool)
    requires entries != map[] && Parsed(entries, parse, Ok(batteries)) && DistinctTrimmedIDs(entries)
    requires forall id | id in entries ::
               parse(TrimSpace(entries[id])).Some? && parse(TrimSpace(entries[id])).value.text == TrimSpace(entries[id])
    ensures NeverShared(batteries, parse, stable)
  {
    DuplicatesPreventedIff(entries, parse, batteries, stable);
  }

  /** One battery by its address and by its name, and one by two spellings of its
      address: both configurations are accepted, and both batteries are supervised
      twice in some run over devices of one name each. */
  lemma DuplicatesAccepted(v: string, w: string, parse: AddressParser)
    requires IsTrimmed(v) && IsTrimmed(w) && v != "" && w != "" && v != w
    requires parse(v).Some? && (parse(w).None? || parse(w) == parse(v))
    ensures var entries := map["a" := v, "b" := w];
            && Acceptable(entries) && DistinctTrimmedIDs(entries)
            && forall batteries | Parsed(entries, parse, Ok(batteries)) :: !NeverShared(batteries, parse, true)
  {
    TrimmedIsFixed(v);
    TrimmedIsFixed(w);
    TrimmedIsFixed("a");
    TrimmedIsFixed("b");
    var entries := map["a" := v, "b" := w];
    assert TrimSpace(entries["a"]) == v && TrimSpace(entries["b"]) == w;
    forall batteries | Parsed(entries, parse, Ok(batteries)) ensures !NeverShared(batteries, parse, true) {
      DuplicatesPreventedIff(entries, parse, batteries, true);
      assert "a" in entries && "b" in entries;
    }
  }
}

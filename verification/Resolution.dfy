/** Turning configured batteries into device addresses with one scan
    (resolveAddresses in internal/litime/manager.go). */
module Resolution {
  import opened Prelude
  import opened Bluetooth
  import opened Batteries

  /** What the one scan of a resolution comes back with. */
  type Scan = Result<seq<Discovered>, ()>

  datatype ResolveError =
    | BadAddress(id: string)
    | ScanFailed
    | AmbiguousName(name: string, addresses: seq<Address>)

  /** The addresses of the scan entries that carry a name, in scan order. */
  function Matches(devices: seq<Discovered>, name: string): seq<Address> {
    if devices == [] then []
    else
      var last := devices[|devices| - 1];
      Matches(devices[..|devices| - 1], name) + (if last.name == name then [last.address] else [])
  }

  predicate Increasing(ks: seq<nat>) {
    forall i, j | 0 <= i < j < |ks| :: ks[i] < ks[j]
  }

  /** The matches are the addresses of all entries that carry the name and of no
      other, each entry once, in scan order. */
  lemma {:induction false} MatchesAre(devices: seq<Discovered>, name: string) returns (ks: seq<nat>)
    ensures Increasing(ks) && |ks| == |Matches(devices, name)|
    ensures forall i | 0 <= i < |ks| ::
              ks[i] < |devices| && devices[ks[i]].name == name && Matches(devices, name)[i] == devices[ks[i]].address
    ensures forall k | 0 <= k < |devices| && devices[k].name == name :: k in ks
  {
    if devices == [] {
      ks := [];
    } else {
      var n := |devices| - 1;
      ks := MatchesAre(devices[..n], name);
      if devices[n].name == name {
        ks := ks + [n];
      }
    }
  }

  /** Two different entries of the scan carry the name. */
  ghost predicate Repeated(devices: seq<Discovered>, name: string) {
    exists j, k | 0 <= j < k < |devices| :: devices[j].name == name && devices[k].name == name
  }

  /** Entry k carries the name and no other entry does. */
  ghost predicate OnlyEntry(devices: seq<Discovered>, name: string, k: nat) {
    k < |devices| && devices[k].name == name &&
    forall j | 0 <= j < |devices| && devices[j].name == name :: j == k
  }

  lemma RepeatedIff(devices: seq<Discovered>, name: string)
    ensures Repeated(devices, name) <==> |Matches(devices, name)| > 1
  {
    var ks := MatchesAre(devices, name);
    if Repeated(devices, name) {
      var j, k :| 0 <= j < k < |devices| && devices[j].name == name && devices[k].name == name;
      assert j in ks && k in ks;
    }
    if |ks| > 1 {
      assert ks[0] < ks[1] && devices[ks[0]].name == name && devices[ks[1]].name == name;
    }
  }

  lemma OnlyEntryIff(devices: seq<Discovered>, name: string, k: nat)
    ensures OnlyEntry(devices, name, k) <==>
            |Matches(devices, name)| == 1 && k < |devices| && devices[k].name == name
    ensures OnlyEntry(devices, name, k) ==> Matches(devices, name)[0] == devices[k].address
  {
    var ks := MatchesAre(devices, name);
    RepeatedIff(devices, name);
    if OnlyEntry(devices, name, k) {
      assert k in ks;
    }
  }

  ghost predicate Unparsable(b: Battery, parse: AddressParser) {
    b.kind == MatchAddress && parse(b.value).None?
  }

  ghost predicate NameConfigured(batteries: seq<Battery>, name: string) {
    exists b | b in batteries :: b.kind == MatchName && b.value == name
  }

  /** The declarative meaning of a battery's place in a scan result. */
  function Locate(b: Battery, devices: seq<Discovered>, parse: AddressParser): Option<Address> {
    if b.kind == MatchAddress then parse(b.value)
    else if |Matches(devices, b.value)| == 1 then Some(Matches(devices, b.value)[0])
    else None
  }

  /** Every ID is resolved exactly when some battery carrying it can be located,
      and then to where one of those batteries is. */
  ghost predicate Resolves(batteries: seq<Battery>, devices: seq<Discovered>, parse: AddressParser,
                           resolved: map<string, Address>)
  {
    && (forall b | b in batteries && Locate(b, devices, parse).Some? :: b.id in resolved)
    && (forall id | id in resolved ::
          exists b | b in batteries :: b.id == id && Locate(b, devices, parse) == Some(resolved[id]))
  }

  ghost predicate DistinctIDs(batteries: seq<Battery>) {
    forall b, c | b in batteries && c in batteries && b.id == c.id :: b == c
  }

  ghost predicate Ambiguous(batteries: seq<Battery>, devices: seq<Discovered>, name: string) {
    NameConfigured(batteries, name) && |Matches(devices, name)| > 1
  }

  /** What one call of resolveAddresses may answer. The scan is made only when
      some battery is matched by name. */
  ghost predicate Answers(batteries: seq<Battery>, scan: Scan, parse: AddressParser,
                          r: Result<map<string, Address>, ResolveError>)
  {
    if exists b | b in batteries :: Unparsable(b, parse) then
      exists b | b in batteries :: Unparsable(b, parse) && r == Err(BadAddress(b.id))
    else if forall b | b in batteries :: b.kind == MatchAddress then
      r.Ok? && Resolves(batteries, [], parse, r.value)
    else match scan
      case Err(_) => r == Err(ScanFailed)
      case Ok(devices) =>
        if exists name :: Ambiguous(batteries, devices, name) then
          exists name :: Ambiguous(batteries, devices, name) && r == Err(AmbiguousName(name, Matches(devices, name)))
        else
          r.Ok? && Resolves(batteries, devices, parse, r.value)
  }

  /** The IDs configured for a name, in configuration order. */
  function IDsFor(batteries: seq<Battery>, name: string): seq<string> {
    if batteries == [] then []
    else
      var last := batteries[|batteries| - 1];
      IDsFor(batteries[..|batteries| - 1], name) +
      (if last.kind == MatchName && last.value == name then [last.id] else [])
  }

  /** The state after grouping the first batteries: address batteries are
      resolved, names are grouped in order of first appearance, once each. */
  ghost predicate AddressesResolved(batteries: seq<Battery>, parse: AddressParser, resolved: map<string, Address>) {
    && (forall b | b in batteries :: !Unparsable(b, parse))
    && (forall b | b in batteries && b.kind == MatchAddress :: b.id in resolved)
    && (forall id | id in resolved ::
          exists b | b in batteries :: b.kind == MatchAddress && b.id == id && parse(b.value) == Some(resolved[id]))
  }

  ghost predicate NamesGrouped(batteries: seq<Battery>, names: seq<string>, byName: map<string, seq<string>>) {
    && (forall name :: name in byName <==> name in names)
    && (forall i, j | 0 <= i < j < |names| :: names[i] != names[j])
    && (forall name | name in byName :: byName[name] != [] && byName[name] == IDsFor(batteries, name))
    && (forall b | b in batteries && b.kind == MatchName :: b.value in byName)
  }

  /** The first loop: parse addresses, group names. */
  method GroupByName(batteries: seq<Battery>, parse: AddressParser)
    returns (failed: Option<string>, resolved: map<string, Address>,
             names: seq<string>, byName: map<string, seq<string>>)
    ensures failed.Some? ==> exists b | b in batteries :: Unparsable(b, parse) && b.id == failed.value
    ensures failed.None? ==> AddressesResolved(batteries, parse, resolved) && NamesGrouped(batteries, names, byName)
  {
    resolved, names, byName := map[], [], map[];
    for i := 0 to |batteries|
      invariant AddressesResolved(batteries[..i], parse, resolved)
      invariant NamesGrouped(batteries[..i], names, byName)
    {
      var battery := batteries[i];
      assert batteries[..i + 1] == batteries[..i] + [battery];
      if battery.kind == MatchAddress {
        var address := parse(battery.value);
        if address.None? {
          assert Unparsable(battery, parse);
          return Some(battery.id), resolved, names, byName;
        }
        ResolveOneMore(batteries[..i], battery, parse, resolved);
        SkipAddress(batteries[..i], battery, names, byName);
        resolved := resolved[battery.id := address.value];
      } else {
        SkipName(batteries[..i], battery, parse, resolved);
        if battery.value !in byName {
          FirstID(batteries[..i], battery, names, byName);
          names := names + [battery.value];
          byName := byName[battery.value := [battery.id]];
        } else {
          AnotherID(batteries[..i], battery, names, byName);
          byName := byName[battery.value := byName[battery.value] + [battery.id]];
        }
      }
    }
    assert batteries[..|batteries|] == batteries;
    return None, resolved, names, byName;
  }

  lemma ResolveOneMore(done: seq<Battery>, b: Battery, parse: AddressParser, resolved: map<string, Address>)
    requires AddressesResolved(done, parse, resolved) && b.kind == MatchAddress && parse(b.value).Some?
    ensures AddressesResolved(done + [b], parse, resolved[b.id := parse(b.value).value])
  {
    var next := resolved[b.id := parse(b.value).value];
    forall id | id in next
      ensures exists c | c in done + [b] :: c.kind == MatchAddress && c.id == id && parse(c.value) == Some(next[id])
    {
      if id == b.id {
        assert b in done + [b];
      } else {
        var c :| c in done && c.kind == MatchAddress && c.id == id && parse(c.value) == Some(resolved[id]);
        assert c in done + [b];
      }
    }
  }

  lemma SkipName(done: seq<Battery>, b: Battery, parse: AddressParser, resolved: map<string, Address>)
    requires AddressesResolved(done, parse, resolved) && b.kind == MatchName
    ensures AddressesResolved(done + [b], parse, resolved)
  {
    forall id | id in resolved
      ensures exists c | c in done + [b] :: c.kind == MatchAddress && c.id == id && parse(c.value) == Some(resolved[id])
    {
      var c :| c in done && c.kind == MatchAddress && c.id == id && parse(c.value) == Some(resolved[id]);
      assert c in done + [b];
    }
  }

  lemma IDsForAppend(done: seq<Battery>, b: Battery, name: string)
    ensures IDsFor(done + [b], name) ==
            IDsFor(done, name) + (if b.kind == MatchName && b.value == name then [b.id] else [])
  {
    assert (done + [b])[..|done|] == done;
  }

  lemma SkipAddress(done: seq<Battery>, b: Battery, names: seq<string>, byName: map<string, seq<string>>)
    requires NamesGrouped(done, names, byName) && b.kind == MatchAddress
    ensures NamesGrouped(done + [b], names, byName)
  {
    forall name | name in byName ensures byName[name] == IDsFor(done + [b], name) {
      IDsForAppend(done, b, name);
    }
  }

  lemma FirstID(done: seq<Battery>, b: Battery, names: seq<string>, byName: map<string, seq<string>>)
    requires NamesGrouped(done, names, byName) && b.kind == MatchName && b.value !in byName
    ensures NamesGrouped(done + [b], names + [b.value], byName[b.value := [b.id]])
  {
    var next := byName[b.value := [b.id]];
    NoIDsFor(done, b.value);
    forall name | name in next ensures next[name] == IDsFor(done + [b], name) {
      IDsForAppend(done, b, name);
    }
  }

  lemma AnotherID(done: seq<Battery>, b: Battery, names: seq<string>, byName: map<string, seq<string>>)
    requires NamesGrouped(done, names, byName) && b.kind == MatchName && b.value in byName
    ensures NamesGrouped(done + [b], names, byName[b.value := byName[b.value] + [b.id]])
  {
    var next := byName[b.value := byName[b.value] + [b.id]];
    forall name | name in next ensures next[name] == IDsFor(done + [b], name) {
      IDsForAppend(done, b, name);
    }
  }

  lemma {:induction false} IDFor(batteries: seq<Battery>, name: string, id: string)
    ensures id in IDsFor(batteries, name) <==>
            exists b | b in batteries :: b.kind == MatchName && b.value == name && b.id == id
  {
    if batteries != [] {
      var init := batteries[..|batteries| - 1];
      IDFor(init, name, id);
      assert batteries == init + [batteries[|batteries| - 1]];
    }
  }

  /** The IDs of a name are those of the batteries configured by it. */
  lemma NoIDsFor(batteries: seq<Battery>, name: string)
    ensures IDsFor(batteries, name) == [] <==> !NameConfigured(batteries, name)
    ensures forall id | id in IDsFor(batteries, name) ::
              exists b | b in batteries :: b.kind == MatchName && b.value == name && b.id == id
    ensures forall b | b in batteries && b.kind == MatchName && b.value == name :: b.id in IDsFor(batteries, name)
  {
    forall id ensures id in IDsFor(batteries, name) <==>
                      exists b | b in batteries :: b.kind == MatchName && b.value == name && b.id == id
    {
      IDFor(batteries, name, id);
    }
    if IDsFor(batteries, name) != [] {
      assert IDsFor(batteries, name)[0] in IDsFor(batteries, name);
    }
  }

  /** The second loop: the scan's entries by name. */
  method GroupFound(devices: seq<Discovered>) returns (found: map<string, seq<Address>>)
    ensures forall name :: (if name in found then found[name] else []) == Matches(devices, name)
  {
    found := map[];
    for i := 0 to |devices|
      invariant forall name :: (if name in found then found[name] else []) == Matches(devices[..i], name)
    {
      assert devices[..i + 1][..i] == devices[..i];
      var previous := if devices[i].name in found then found[devices[i].name] else [];
      found := found[devices[i].name := previous + [devices[i].address]];
    }
    assert devices[..|devices|] == devices;
  }

  /** The state once the names in `done` have been matched: nothing wrong is
      resolved, and nothing is missing for the names done. */
  ghost predicate Matched(batteries: seq<Battery>, devices: seq<Discovered>, parse: AddressParser,
                          done: set<string>, resolved: map<string, Address>)
  {
    && (forall b | b in batteries && Locate(b, devices, parse).Some? && (b.kind == MatchAddress || b.value in done) ::
          b.id in resolved)
    && (forall id | id in resolved ::
          exists b | b in batteries :: b.id == id && Locate(b, devices, parse) == Some(resolved[id]))
  }

  lemma NothingMatchedYet(batteries: seq<Battery>, devices: seq<Discovered>, parse: AddressParser,
                          resolved: map<string, Address>)
    requires AddressesResolved(batteries, parse, resolved)
    ensures Matched(batteries, devices, parse, {}, resolved)
  {
    forall id | id in resolved
      ensures exists b | b in batteries :: b.id == id && Locate(b, devices, parse) == Some(resolved[id])
    {
      var b :| b in batteries && b.kind == MatchAddress && b.id == id && parse(b.value) == Some(resolved[id]);
      assert Locate(b, devices, parse) == Some(resolved[id]);
    }
  }

  /** Giving every ID of one name its only match. */
  method AssignAll(ids: seq<string>, address: Address, before: map<string, Address>)
    returns (resolved: map<string, Address>)
    ensures resolved.Keys == before.Keys + set id | id in ids
    ensures forall id | id in resolved :: resolved[id] == if id in ids then address else before[id]
  {
    resolved := before;
    for i := 0 to |ids|
      invariant resolved.Keys == before.Keys + set id | id in ids[..i]
      invariant forall id | id in resolved :: resolved[id] == if id in ids[..i] then address else before[id]
    {
      assert ids[..i + 1] == ids[..i] + [ids[i]];
      resolved := resolved[ids[i] := address];
    }
    assert ids[..|ids|] == ids;
  }

  lemma MatchOneMore(batteries: seq<Battery>, devices: seq<Discovered>, parse: AddressParser, done: set<string>,
                     name: string, before: map<string, Address>, after: map<string, Address>)
    requires Matched(batteries, devices, parse, done, before)
    requires |Matches(devices, name)| == 1
    requires after.Keys == before.Keys + set id | id in IDsFor(batteries, name)
    requires forall id | id in after ::
               after[id] == if id in IDsFor(batteries, name) then Matches(devices, name)[0] else before[id]
    ensures Matched(batteries, devices, parse, done + {name}, after)
  {
    NoIDsFor(batteries, name);
    forall id | id in after
      ensures exists b | b in batteries :: b.id == id && Locate(b, devices, parse) == Some(after[id])
    {
      if id in IDsFor(batteries, name) {
        var b :| b in batteries && b.kind == MatchName && b.value == name && b.id == id;
        assert Locate(b, devices, parse) == Some(after[id]);
      } else {
        var b :| b in batteries && b.id == id && Locate(b, devices, parse) == Some(before[id]);
        assert Locate(b, devices, parse) == Some(after[id]);
      }
    }
  }

  /** The third loop: the names in an arbitrary order, as a Go map yields them. */
  method MatchNames(batteries: seq<Battery>, devices: seq<Discovered>, parse: AddressParser,
                    byName: map<string, seq<string>>, names: seq<string>, known: map<string, Address>)
    returns (r: Result<map<string, Address>, ResolveError>)
    requires AddressesResolved(batteries, parse, known) && NamesGrouped(batteries, names, byName)
    ensures r.Err? ==> exists name :: Ambiguous(batteries, devices, name) &&
                                      r == Err(AmbiguousName(name, Matches(devices, name)))
    ensures r.Ok? ==> Resolves(batteries, devices, parse, r.value)
    ensures r.Ok? ==> forall name :: !Ambiguous(batteries, devices, name)
  {
    var found := GroupFound(devices);
    var resolved := known;
    var remaining := byName.Keys;
    ghost var done: set<string> := {};
    NothingMatchedYet(batteries, devices, parse, known);
    while remaining != {}
      invariant remaining == byName.Keys - done
      invariant Matched(batteries, devices, parse, done, resolved)
      invariant forall name | name in done :: |Matches(devices, name)| <= 1
    {
      var name :| name in remaining;
      var matches := if name in found then found[name] else [];
      assert matches == Matches(devices, name);
      if |matches| > 1 {
        NoIDsFor(batteries, name);
        assert Ambiguous(batteries, devices, name);
        return Err(AmbiguousName(name, matches));
      }
      if |matches| == 1 {
        var next := AssignAll(byName[name], matches[0], resolved);
        MatchOneMore(batteries, devices, parse, done, name, resolved, next);
        resolved := next;
      }
      remaining := remaining - {name};
      done := done + {name};
    }
    NoneAmbiguous(batteries, devices, names, byName);
    return Ok(resolved);
  }

  lemma NoneAmbiguous(batteries: seq<Battery>, devices: seq<Discovered>,
                      names: seq<string>, byName: map<string, seq<string>>)
    requires NamesGrouped(batteries, names, byName)
    requires forall name | name in byName :: |Matches(devices, name)| <= 1
    ensures forall name :: !Ambiguous(batteries, devices, name)
  {
  }

  ghost predicate AmbiguousError(r: Result<map<string, Address>, ResolveError>) {
    r.Err? && r.error.AmbiguousName?
  }

  /** What the answer means in terms of the configuration and the scan's entries. */
  ghost predicate Means(batteries: seq<Battery>, scan: Scan, parse: AddressParser,
                        r: Result<map<string, Address>, ResolveError>)
  {
    && (AmbiguousError(r) <==>
          && scan.Ok? && (forall b | b in batteries :: !Unparsable(b, parse))
          && exists name :: NameConfigured(batteries, name) && Repeated(scan.value, name))
    && (AmbiguousError(r) ==>
          && NameConfigured(batteries, r.error.name) && Repeated(scan.value, r.error.name)
          && r.error.addresses == Matches(scan.value, r.error.name))
    && ((r.Err? && r.error.BadAddress?) <==> exists b | b in batteries :: Unparsable(b, parse))
    && (r == Err(ScanFailed) <==>
          && scan.Err? && (forall b | b in batteries :: !Unparsable(b, parse))
          && exists b | b in batteries :: b.kind == MatchName)
  }

  lemma AnswersMean(batteries: seq<Battery>, scan: Scan, parse: AddressParser,
                    r: Result<map<string, Address>, ResolveError>)
    requires Answers(batteries, scan, parse, r)
    ensures Means(batteries, scan, parse, r)
  {
    if scan.Ok? {
      forall name ensures Repeated(scan.value, name) <==> |Matches(scan.value, name)| > 1 {
        RepeatedIff(scan.value, name);
      }
      assert forall name :: Ambiguous(batteries, scan.value, name) <==>
                            NameConfigured(batteries, name) && Repeated(scan.value, name);
    }
    if forall b | b in batteries :: b.kind == MatchAddress {
      assert forall name :: !NameConfigured(batteries, name);
    }
  }

  /** An answer with distinct IDs, battery by battery: an address is what it parses
      to; a name is the address of the one entry that carries it, if there is one. */
  lemma ResolvedMeans(batteries: seq<Battery>, scan: Scan, parse: AddressParser, resolved: map<string, Address>,
                      b: Battery)
    requires DistinctIDs(batteries) && b in batteries && Answers(batteries, scan, parse, Ok(resolved))
    ensures b.kind == MatchAddress ==> b.id in resolved && Some(resolved[b.id]) == parse(b.value)
    ensures b.kind == MatchName ==>
              && scan.Ok?
              && (b.id in resolved <==> exists k: nat :: OnlyEntry(scan.value, b.value, k))
              && (forall k: nat | OnlyEntry(scan.value, b.value, k) ::
                    b.id in resolved && resolved[b.id] == scan.value[k].address)
  {
    StartTells(batteries, scan, parse, b, resolved);
    if b.kind == MatchName {
      forall k: nat
        ensures OnlyEntry(scan.value, b.value, k) ==>
                  Locate(b, scan.value, parse) == Some(scan.value[k].address)
      {
        OnlyEntryIff(scan.value, b.value, k);
      }
      if b.id in resolved {
        var ks := MatchesAre(scan.value, b.value);
        OnlyEntryIff(scan.value, b.value, ks[0]);
        assert OnlyEntry(scan.value, b.value, ks[0]);
      }
    } else {
      assert !Unparsable(b, parse);
    }
  }

  /** One resolution. The names handed to the scan are the configured ones, once
      each; with no name to look for there is no scan. */
  method ResolveAddresses(batteries: seq<Battery>, scan: Scan, parse: AddressParser)
    returns (r: Result<map<string, Address>, ResolveError>, requested: Option<seq<string>>)
    ensures Answers(batteries, scan, parse, r) && Means(batteries, scan, parse, r)
    ensures requested.Some? ==>
              && requested.value != []
              && (forall name :: name in requested.value <==> NameConfigured(batteries, name))
              && (forall i, j | 0 <= i < j < |requested.value| :: requested.value[i] != requested.value[j])
    ensures requested.None? ==> r.Err? || forall b | b in batteries :: b.kind == MatchAddress
  {
    var failed, resolved, names, byName := GroupByName(batteries, parse);
    if failed.Some? {
      r := Err(BadAddress(failed.value));
      AnswersMean(batteries, scan, parse, r);
      return r, None;
    }
    ConfiguredNames(batteries, names, byName);
    if names == [] {
      NothingMatchedYet(batteries, [], parse, resolved);
      AnswersMean(batteries, scan, parse, Ok(resolved));
      return Ok(resolved), None;
    }
    assert exists b | b in batteries :: b.kind != MatchAddress by {
      assert names[0] in names;
    }
    if scan.Err? {
      AnswersMean(batteries, scan, parse, Err(ScanFailed));
      return Err(ScanFailed), Some(names);
    }
    r := MatchNames(batteries, scan.value, parse, byName, names, resolved);
    AnswersMean(batteries, scan, parse, r);
    requested := Some(names);
  }

  lemma ConfiguredNames(batteries: seq<Battery>, names: seq<string>, byName: map<string, seq<string>>)
    requires NamesGrouped(batteries, names, byName)
    ensures forall name :: name in names <==> NameConfigured(batteries, name)
  {
    forall name ensures name in names <==> NameConfigured(batteries, name) {
      NoIDsFor(batteries, name);
    }
  }

  /** With distinct IDs the answer is exactly the declarative one, battery by
      battery: a name is resolved if and only if one entry carries it. */
  lemma ResolvedExactly(batteries: seq<Battery>, devices: seq<Discovered>, parse: AddressParser,
                        resolved: map<string, Address>, b: Battery)
    requires DistinctIDs(batteries) && Resolves(batteries, devices, parse, resolved) && b in batteries
    ensures b.id in resolved <==> Locate(b, devices, parse).Some?
    ensures b.id in resolved ==> Some(resolved[b.id]) == Locate(b, devices, parse)
  {
    if b.id in resolved {
      var c :| c in batteries && c.id == b.id && Locate(c, devices, parse) == Some(resolved[b.id]);
      assert c == b;
    }
  }

  /** What the answer of a resolution tells one battery's supervisor: an error,
      nothing, or an address. */
  function Told(r: Result<map<string, Address>, ResolveError>, b: Battery): Result<Option<Address>, ()> {
    match r
    case Err(_) => Err(())
    case Ok(resolved) => Ok(if b.id in resolved then Some(resolved[b.id]) else None)
  }

  /** What a supervisor may learn from a rescan. */
  ghost predicate Learns(batteries: seq<Battery>, scan: Scan, parse: AddressParser,
                         b: Battery, told: Result<Option<Address>, ()>)
  {
    exists r :: Answers(batteries, scan, parse, r) && told == Told(r, b)
  }

  ghost predicate AllParse(batteries: seq<Battery>, parse: AddressParser) {
    forall b | b in batteries :: !Unparsable(b, parse)
  }

  ghost predicate SomeAmbiguous(batteries: seq<Battery>, devices: seq<Discovered>) {
    exists name :: Ambiguous(batteries, devices, name)
  }

  /** Without an ambiguous name a battery learns where it is, and nothing else. */
  lemma LearnsOwnPlace(batteries: seq<Battery>, devices: seq<Discovered>, parse: AddressParser, b: Battery,
                       told: Result<Option<Address>, ()>)
    requires DistinctIDs(batteries) && b in batteries && b.kind == MatchName
    requires AllParse(batteries, parse) && !SomeAmbiguous(batteries, devices)
    ensures Learns(batteries, Ok(devices), parse, b, told) <==> told == Ok(Locate(b, devices, parse))
  {
    if Learns(batteries, Ok(devices), parse, b, told) {
      var r :| Answers(batteries, Ok(devices), parse, r) && told == Told(r, b);
      ResolvedExactly(batteries, devices, parse, r.value, b);
    }
    var m := ResolutionExists(batteries, devices, parse);
    ResolvedExactly(batteries, devices, parse, m, b);
    assert Answers(batteries, Ok(devices), parse, Ok(m));
    assert Told(Ok(m), b) == Ok(Locate(b, devices, parse));
  }

  /** What one battery learns from a scan depends on the other batteries only
      through an ambiguous name: otherwise two scans that agree about its own name
      tell it the same, whoever else is configured, present or absent. */
  lemma RescanIsolation(batteries: seq<Battery>, others: seq<Battery>, first: seq<Discovered>, second: seq<Discovered>,
                        parse: AddressParser, b: Battery, told: Result<Option<Address>, ()>)
    requires DistinctIDs(batteries) && b in batteries && AllParse(batteries, parse)
    requires DistinctIDs(others) && b in others && AllParse(others, parse)
    requires b.kind == MatchName && Matches(first, b.value) == Matches(second, b.value)
    requires !SomeAmbiguous(batteries, first) && !SomeAmbiguous(others, second)
    ensures Learns(batteries, Ok(first), parse, b, told) <==> Learns(others, Ok(second), parse, b, told)
  {
    LearnsOwnPlace(batteries, first, parse, b, told);
    LearnsOwnPlace(others, second, parse, b, told);
  }

  /** An ambiguous name, whoever it belongs to, makes the whole scan useless. */
  lemma AmbiguityStopsAll(batteries: seq<Battery>, devices: seq<Discovered>, parse: AddressParser, b: Battery,
                          told: Result<Option<Address>, ()>)
    requires AllParse(batteries, parse) && SomeAmbiguous(batteries, devices)
    requires Learns(batteries, Ok(devices), parse, b, told)
    ensures told.Err?
  {
    var name :| Ambiguous(batteries, devices, name);
    assert !(forall c | c in batteries :: c.kind == MatchAddress);
  }

  /** Whatever the scan, there is an answer. */
  lemma AnswerExists(batteries: seq<Battery>, scan: Scan, parse: AddressParser)
    returns (r: Result<map<string, Address>, ResolveError>)
    ensures Answers(batteries, scan, parse, r)
  {
    if b :| b in batteries && Unparsable(b, parse) {
      r := Err(BadAddress(b.id));
    } else if forall b | b in batteries :: b.kind == MatchAddress {
      var m := ResolutionExists(batteries, [], parse);
      r := Ok(m);
    } else if scan.Err? {
      r := Err(ScanFailed);
    } else if name :| Ambiguous(batteries, scan.value, name) {
      r := Err(AmbiguousName(name, Matches(scan.value, name)));
    } else {
      var m := ResolutionExists(batteries, scan.value, parse);
      r := Ok(m);
    }
  }

  /** A scan as the batteries make use of it: one with an ambiguous name is worth no
      more than one that failed. */
  ghost function Usable(batteries: seq<Battery>, scan: Scan): Scan {
    if scan.Ok? && SomeAmbiguous(batteries, scan.value) then Err(()) else scan
  }

  /** A battery configured with others learns what it would have learned alone from
      the scan as they make use of it. */
  lemma LearnsAsIfAlone(batteries: seq<Battery>, scan: Scan, parse: AddressParser, b: Battery,
                        told: Result<Option<Address>, ()>)
    requires DistinctIDs(batteries) && b in batteries && b.kind == MatchName && AllParse(batteries, parse)
    requires Learns(batteries, scan, parse, b, told)
    ensures Learns([b], Usable(batteries, scan), parse, b, told)
  {
    if scan.Err? || SomeAmbiguous(batteries, scan.value) {
      if scan.Ok? { AmbiguityStopsAll(batteries, scan.value, parse, b, told); }
      assert Answers([b], Err(()), parse, Err(ScanFailed)) by {
        assert b in [b];
      }
      assert Told(Err(ScanFailed), b) == Err(());
      assert told == Err(());
    } else {
      forall name ensures !Ambiguous([b], scan.value, name) {
        assert !Ambiguous(batteries, scan.value, name);
      }
      RescanIsolation(batteries, [b], scan.value, scan.value, parse, b, told);
    }
  }

  /** A resolution that succeeds tells each battery where it is. */
  lemma StartTells(batteries: seq<Battery>, scan: Scan, parse: AddressParser, b: Battery,
                   resolved: map<string, Address>)
    requires DistinctIDs(batteries) && b in batteries && Answers(batteries, scan, parse, Ok(resolved))
    ensures AllParse(batteries, parse)
    ensures Told(Ok(resolved), b) == Ok(Locate(b, ScanEntries(scan), parse))
    ensures b.kind == MatchName ==> scan.Ok? && !SomeAmbiguous(batteries, scan.value)
  {
    if forall c | c in batteries :: c.kind == MatchAddress {
      ResolvedExactly(batteries, [], parse, resolved, b);
    } else {
      ResolvedExactly(batteries, scan.value, parse, resolved, b);
    }
  }

  lemma AnswersAlone(scan: Scan, parse: AddressParser, b: Battery, own: map<string, Address>)
    requires !Unparsable(b, parse) && (b.kind == MatchName ==> scan.Ok? && !SomeAmbiguous([b], scan.value))
    requires Resolves([b], if b.kind == MatchAddress then [] else scan.value, parse, own)
    ensures Answers([b], scan, parse, Ok(own))
  {
    assert b in [b] && forall c | c in [b] :: c == b;
  }

  /** And the same holds of the resolution Run starts with. */
  lemma StartsAsIfAlone(batteries: seq<Battery>, scan: Scan, parse: AddressParser, b: Battery,
                        resolved: map<string, Address>)
    returns (own: map<string, Address>)
    requires DistinctIDs(batteries) && b in batteries && Answers(batteries, scan, parse, Ok(resolved))
    ensures Answers([b], scan, parse, Ok(own)) && Told(Ok(own), b) == Told(Ok(resolved), b)
  {
    StartTells(batteries, scan, parse, b, resolved);
    if b.kind == MatchName {
      forall name ensures !Ambiguous([b], scan.value, name) {
        assert !Ambiguous(batteries, scan.value, name);
      }
    }
    own := ResolutionExists([b], if b.kind == MatchAddress then [] else scan.value, parse);
    AnswersAlone(scan, parse, b, own);
    StartTells([b], scan, parse, b, own);
  }

  function ScanEntries(scan: Scan): seq<Discovered> {
    match scan
    case Ok(devices) => devices
    case Err(_) => []
  }

  lemma {:induction false} ResolutionExists(batteries: seq<Battery>, devices: seq<Discovered>, parse: AddressParser)
    returns (resolved: map<string, Address>)
    ensures Resolves(batteries, devices, parse, resolved)
  {
    if batteries == [] {
      resolved := map[];
    } else {
      var b := batteries[|batteries| - 1];
      var init := batteries[..|batteries| - 1];
      assert batteries == init + [b];
      var rest := ResolutionExists(init, devices, parse);
      resolved := if Locate(b, devices, parse).Some? then rest[b.id := Locate(b, devices, parse).value] else rest;
      forall id | id in resolved
        ensures exists c | c in batteries :: c.id == id && Locate(c, devices, parse) == Some(resolved[id])
      {
        if id == b.id && Locate(b, devices, parse).Some? {
          assert b in batteries;
        } else {
          var c :| c in init && c.id == id && Locate(c, devices, parse) == Some(rest[id]);
          assert c in batteries;
        }
      }
    }
  }
}

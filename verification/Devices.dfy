/** Normalising the Victron configuration (internal/victron/device.go) and the
    address index built from it (internal/victron/collector.go). */
module Devices {
  import opened Prelude
  import opened Text
  import opened Sorting
  import opened Bluetooth

  datatype Device = Device(id: string, address: string, key: seq<nat>)

  datatype ConfigError =
    | EmptyID
    | NoAddress(id: string)
    | BadAddress(id: string)
    | NoKey(id: string)
    | BadKey(id: string)
    | SharedAddress(previous: string, id: string, address: string)
    | OrphanKey(rawID: string)

  /** victronble.ParseKey: any function will do. */
  type KeyParser = string -> Option<seq<nat>>

  /** The two maps of the configuration with the library's parsers. */
  datatype Config = Config(addresses: map<string, string>, keys: map<string, string>,
                           parseAddress: AddressParser, parseKey: KeyParser)
  {
    /** The first check an entry fails, in the order the checks are made. */
    function Fault(rawID: string): Option<ConfigError>
      requires rawID in addresses
    {
      var id := TrimSpace(rawID);
      var address := TrimSpace(addresses[rawID]);
      if id == "" then Some(EmptyID)
      else if address == "" then Some(NoAddress(id))
      else if parseAddress(address).None? then Some(BadAddress(id))
      else if id !in keys then Some(NoKey(id))
      else if parseKey(TrimSpace(keys[id])).None? then Some(BadKey(id))
      else None
    }

    /** The address a sound entry is listed under. */
    function Normalised(rawID: string): string
      requires rawID in addresses && Fault(rawID).None?
    {
      ToUpper(parseAddress(TrimSpace(addresses[rawID])).value.text)
    }

    function Entry(rawID: string): Device
      requires rawID in addresses && Fault(rawID).None?
    {
      Device(TrimSpace(rawID), Normalised(rawID), parseKey(TrimSpace(keys[TrimSpace(rawID)])).value)
    }

    ghost predicate Sound(ids: set<string>) {
      ids <= addresses.Keys && forall id {:trigger Fault(id)} | id in ids :: Fault(id).None?
    }

    function Entries(ids: set<string>): set<Device>
      requires Sound(ids)
    {
      set id | id in ids :: Entry(id)
    }

    ghost predicate DistinctAddresses(ids: set<string>)
      requires Sound(ids)
    {
      forall i, j {:trigger Normalised(i), Normalised(j)} |
        i in ids && j in ids && Normalised(i) == Normalised(j) :: i == j
    }

    ghost predicate NoOrphans() {
      forall k {:trigger TrimSpace(k)} | k in keys :: TrimSpace(k) in addresses
    }

    /** Exactly the configurations that are accepted. */
    ghost predicate Acceptable() {
      Sound(addresses.Keys) && DistinctAddresses(addresses.Keys) && NoOrphans()
    }

    ghost predicate DistinctTrimmedIDs() {
      forall i, j {:trigger TrimSpace(i), TrimSpace(j)} |
        i in addresses && j in addresses && TrimSpace(i) == TrimSpace(j) :: i == j
    }

    /** The error names a fault that is really in the configuration. */
    ghost predicate Blames(e: ConfigError) {
      match e
      case SharedAddress(previous, id, address) =>
        exists i, j | i in addresses && j in addresses && i != j && Fault(i).None? && Fault(j).None? ::
          TrimSpace(i) == previous && TrimSpace(j) == id && Normalised(i) == address && Normalised(j) == address
      case OrphanKey(rawID) => rawID in keys && TrimSpace(rawID) !in addresses
      case _ => exists rawID | rawID in addresses :: Fault(rawID) == Some(e)
    }

    ghost predicate Parsed(r: Result<seq<Device>, ConfigError>) {
      match r
      case Ok(devices) =>
        Acceptable() && IsListing(devices, Entries(addresses.Keys), IDOf)
      case Err(e) => !Acceptable() && Blames(e)
    }
  }

  /** What is wrong with one entry, told from its texts and the library's answers. */
  ghost predicate Wrong(c: Config, rawID: string, e: ConfigError)
    requires rawID in c.addresses
  {
    var id, address := TrimSpace(rawID), TrimSpace(c.addresses[rawID]);
    match e
    case EmptyID => id == ""
    case NoAddress(x) => x == id != "" && address == ""
    case BadAddress(x) => x == id != "" && address != "" && c.parseAddress(address).None?
    case NoKey(x) => x == id != "" && address != "" && c.parseAddress(address).Some? && id !in c.keys
    case BadKey(x) =>
      && x == id != "" && address != "" && c.parseAddress(address).Some?
      && id in c.keys && c.parseKey(TrimSpace(c.keys[id])).None?
    case _ => false
  }

  /** Each entry is found wrong in exactly the way it is, or not at all. */
  lemma FaultIs(c: Config, rawID: string, e: ConfigError)
    requires rawID in c.addresses
    ensures c.Fault(rawID) == Some(e) <==> Wrong(c, rawID, e)
  {
  }

  /** The entry is sound: ID, address and key are there and the latter two parse. */
  ghost predicate EntrySound(c: Config, rawID: string)
    requires rawID in c.addresses
  {
    var id, address := TrimSpace(rawID), TrimSpace(c.addresses[rawID]);
    && id != "" && address != "" && c.parseAddress(address).Some?
    && id in c.keys && c.parseKey(TrimSpace(c.keys[id])).Some?
  }

  /** The listed device is what that entry says. */
  ghost predicate Describes(c: Config, rawID: string, d: Device)
    requires rawID in c.addresses
  {
    && EntrySound(c, rawID)
    && d.id == TrimSpace(rawID)
    && EqualButCase(d.address, c.parseAddress(TrimSpace(c.addresses[rawID])).value.text)
    && ToUpper(d.address) == d.address
    && Some(d.key) == c.parseKey(TrimSpace(c.keys[d.id]))
  }

  lemma SoundIffNoFault(c: Config, rawID: string)
    requires rawID in c.addresses
    ensures c.Fault(rawID).None? <==> EntrySound(c, rawID)
  {
  }

  /** Two entries name one address, whatever the case of its letters. */
  ghost predicate SameAddress(c: Config, i: string, j: string)
    requires i in c.addresses && j in c.addresses && EntrySound(c, i) && EntrySound(c, j)
  {
    EqualButCase(c.parseAddress(TrimSpace(c.addresses[i])).value.text,
                 c.parseAddress(TrimSpace(c.addresses[j])).value.text)
  }

  lemma SameAddressIff(c: Config, i: string, j: string)
    requires i in c.addresses && j in c.addresses && EntrySound(c, i) && EntrySound(c, j)
    ensures c.Fault(i).None? && c.Fault(j).None?
    ensures SameAddress(c, i, j) <==> c.Normalised(i) == c.Normalised(j)
  {
    ToUpperFoldsCase(c.parseAddress(TrimSpace(c.addresses[i])).value.text,
                     c.parseAddress(TrimSpace(c.addresses[j])).value.text);
  }

  ghost predicate AllSound(c: Config) {
    forall id | id in c.addresses :: EntrySound(c, id)
  }

  lemma AllSoundIff(c: Config)
    ensures AllSound(c) <==> c.Sound(c.addresses.Keys)
  {
    forall id | id in c.addresses ensures c.Fault(id).None? <==> EntrySound(c, id) {
      SoundIffNoFault(c, id);
    }
  }

  ghost predicate AddressesApart(c: Config)
    requires AllSound(c)
  {
    forall i, j {:trigger SameAddress(c, i, j)} | i in c.addresses && j in c.addresses && SameAddress(c, i, j) :: i == j
  }

  lemma AddressesApartIff(c: Config)
    requires AllSound(c) && c.Sound(c.addresses.Keys)
    ensures AddressesApart(c) <==> c.DistinctAddresses(c.addresses.Keys)
  {
    if AddressesApart(c) {
      forall i, j | i in c.addresses && j in c.addresses && c.Normalised(i) == c.Normalised(j) ensures i == j {
        SameAddressIff(c, i, j);
      }
    }
    if c.DistinctAddresses(c.addresses.Keys) {
      forall i, j | i in c.addresses && j in c.addresses && SameAddress(c, i, j) ensures i == j {
        SameAddressIff(c, i, j);
      }
    }
  }

  /** Exactly the configurations that are accepted, in terms of their texts. */
  lemma AcceptableIff(c: Config)
    ensures c.Acceptable() <==>
            AllSound(c) && AddressesApart(c) && forall k | k in c.keys :: TrimSpace(k) in c.addresses
  {
    AllSoundIff(c);
    if AllSound(c) { AddressesApartIff(c); }
  }

  lemma EntryDescribed(c: Config, rawID: string)
    requires rawID in c.addresses && c.Fault(rawID).None?
    ensures Describes(c, rawID, c.Entry(rawID))
  {
    var text := c.parseAddress(TrimSpace(c.addresses[rawID])).value.text;
    ToUpperFoldsCase(text, text);
    ToUpperFoldsCase(c.Entry(rawID).address, text);
  }

  /** A parsed list describes the entries: each of them ... */
  lemma EntryListed(c: Config, devices: seq<Device>, rawID: string) returns (d: Device)
    requires c.addresses != map[] && c.Parsed(Ok(devices)) && rawID in c.addresses
    ensures d in devices && Describes(c, rawID, d)
  {
    ListedAre(c, devices);
    EntryDescribed(c, rawID);
    d := c.Entry(rawID);
  }

  /** ... and nothing else. */
  lemma ListedDescribes(c: Config, devices: seq<Device>, d: Device) returns (rawID: string)
    requires c.addresses != map[] && c.Parsed(Ok(devices)) && d in devices
    ensures rawID in c.addresses && Describes(c, rawID, d)
  {
    ListedAre(c, devices);
    rawID :| rawID in c.addresses && d == c.Entry(rawID);
    EntryDescribed(c, rawID);
  }

  function IDOf(d: Device): string { d.id }

  /** `seen` holds the addresses of the entries in `done`; `owner` remembers which
      entry put each of them there. */
  ghost predicate Indexed(c: Config, done: set<string>, owner: map<string, string>, seen: map<string, string>) {
    && c.Sound(done)
    && owner.Keys == seen.Keys
    && (forall a | a in owner :: owner[a] in done && c.Normalised(owner[a]) == a && TrimSpace(owner[a]) == seen[a])
    && (forall id | id in done :: c.Normalised(id) in seen && owner[c.Normalised(id)] == id)
  }

  /** The loop's state after the entries in `done`. */
  ghost predicate HaveRead(c: Config, done: set<string>, owner: map<string, string>,
                           seen: map<string, string>, devices: seq<Device>)
  {
    Indexed(c, done, owner, seen) && multiset(devices) == multiset(c.Entries(done))
  }

  lemma FaultRejects(c: Config, id: string)
    requires id in c.addresses && c.Fault(id).Some?
    ensures c.Parsed(Err(c.Fault(id).value))
  {
  }

  lemma DuplicateAddress(c: Config, done: set<string>, owner: map<string, string>, seen: map<string, string>,
                         id: string)
    requires Indexed(c, done, owner, seen)
    requires id in c.addresses && id !in done && c.Fault(id).None? && c.Normalised(id) in seen
    ensures c.Parsed(Err(SharedAddress(seen[c.Normalised(id)], TrimSpace(id), c.Normalised(id))))
  {
    assert owner[c.Normalised(id)] in c.addresses;
  }

  lemma IndexOneMore(c: Config, done: set<string>, owner: map<string, string>, seen: map<string, string>, id: string)
    requires Indexed(c, done, owner, seen)
    requires id in c.addresses && c.Fault(id).None? && c.Normalised(id) !in seen
    ensures Indexed(c, done + {id}, owner[c.Normalised(id) := id], seen[c.Normalised(id) := TrimSpace(id)])
  {
  }

  lemma ReadOneMore(c: Config, done: set<string>, owner: map<string, string>, seen: map<string, string>,
                    devices: seq<Device>, id: string)
    requires HaveRead(c, done, owner, seen, devices)
    requires id in c.addresses && id !in done && c.Fault(id).None? && c.Normalised(id) !in seen
    ensures HaveRead(c, done + {id}, owner[c.Normalised(id) := id], seen[c.Normalised(id) := TrimSpace(id)],
                     devices + [c.Entry(id)])
  {
    IndexOneMore(c, done, owner, seen, id);
    AddEntry(c, done, id);
  }

  /** An entry with a new address adds one device that was not there before. */
  lemma AddEntry(c: Config, ids: set<string>, id: string)
    requires c.Sound(ids) && id in c.addresses && c.Fault(id).None?
    requires forall i | i in ids :: c.Normalised(i) != c.Normalised(id)
    ensures c.Sound(ids + {id})
    ensures multiset(c.Entries(ids + {id})) == multiset(c.Entries(ids)) + multiset{c.Entry(id)}
  {
    assert c.Entries(ids + {id}) == c.Entries(ids) + {c.Entry(id)};
    assert c.Entry(id) !in c.Entries(ids);
  }

  lemma AllRead(c: Config, owner: map<string, string>, seen: map<string, string>, devices: seq<Device>)
    requires HaveRead(c, c.addresses.Keys, owner, seen, devices) && c.NoOrphans()
    ensures c.Parsed(Ok(Sort(devices, IDOf)))
  {
  }

  /** The checks made on one entry, in their order. */
  method ReadEntry(c: Config, rawID: string) returns (r: Result<Device, ConfigError>)
    requires rawID in c.addresses
    ensures r == if c.Fault(rawID).Some? then Err(c.Fault(rawID).value) else Ok(c.Entry(rawID))
  {
    var id := TrimSpace(rawID);
    var address := TrimSpace(c.addresses[rawID]);

    if id == "" {
      return Err(EmptyID);
    }
    if address == "" {
      return Err(NoAddress(id));
    }
    var parsed := c.parseAddress(address);
    if parsed.None? {
      return Err(BadAddress(id));
    }
    if id !in c.keys {
      return Err(NoKey(id));
    }
    var key := c.parseKey(TrimSpace(c.keys[id]));
    if key.None? {
      return Err(BadKey(id));
    }
    return Ok(Device(id, ToUpper(parsed.value.text), key.value));
  }

  /** The walk over the keys for one without a device. */
  method FindOrphan(c: Config) returns (orphan: Option<string>)
    ensures orphan.None? <==> c.NoOrphans()
    ensures orphan.Some? ==> orphan.value in c.keys && TrimSpace(orphan.value) !in c.addresses
  {
    var unchecked := c.keys.Keys;
    while unchecked != {}
      invariant unchecked <= c.keys.Keys
      invariant forall k {:trigger TrimSpace(k)} | k in c.keys && k !in unchecked :: TrimSpace(k) in c.addresses
    {
      var rawID :| rawID in unchecked;
      if TrimSpace(rawID) !in c.addresses {
        return Some(rawID);
      }
      unchecked := unchecked - {rawID};
    }
    return None;
  }

  /** Both maps are walked in an arbitrary order, as Go does, so what is ensured
      holds for every pair of iteration orders. */
  method ParseDevices(c: Config) returns (r: Result<seq<Device>, ConfigError>)
    ensures c.addresses == map[] ==> r == Ok([])
    ensures c.addresses != map[] ==> c.Parsed(r)
  {
    if c.addresses == map[] {
      return Ok([]);
    }

    var devices: seq<Device> := [];
    var seen: map<string, string> := map[];
    var remaining := c.addresses.Keys;
    ghost var done: set<string> := {};
    ghost var owner: map<string, string> := map[];
    while remaining != {}
      invariant remaining == c.addresses.Keys - done
      invariant HaveRead(c, done, owner, seen, devices)
    {
      var rawID :| rawID in remaining;
      var entry := ReadEntry(c, rawID);
      if entry.Err? {
        FaultRejects(c, rawID);
        return Err(entry.error);
      }

      var device := entry.value;
      if device.address in seen {
        DuplicateAddress(c, done, owner, seen, rawID);
        return Err(SharedAddress(seen[device.address], device.id, device.address));
      }
      ReadOneMore(c, done, owner, seen, devices, rawID);
      seen := seen[device.address := device.id];
      owner := owner[device.address := rawID];

      devices := devices + [device];
      remaining := remaining - {rawID};
      done := done + {rawID};
    }
    assert done == c.addresses.Keys;

    var orphan := FindOrphan(c);
    if orphan.Some? {
      return Err(OrphanKey(orphan.value));
    }

    AllRead(c, owner, seen, devices);
    return Ok(Sort(devices, IDOf));
  }

  /** There is one device for every entry. */
  lemma {:induction false} OneDevicePerEntry(c: Config, ids: set<string>)
    requires c.Sound(ids) && c.DistinctAddresses(ids)
    ensures |c.Entries(ids)| == |ids|
  {
    if ids != {} {
      var id :| id in ids;
      var rest := ids - {id};
      OneDevicePerEntry(c, rest);
      assert c.Entries(ids) == c.Entries(rest) + {c.Entry(id)};
      assert c.Entry(id) !in c.Entries(rest);
    }
  }

  function TrimAll(ids: set<string>): set<string> {
    set id | id in ids :: TrimSpace(id)
  }

  lemma AcceptedIDsCross(c: Config)
    requires c.Acceptable()
    ensures forall id {:trigger TrimSpace(id)} | id in c.addresses :: TrimSpace(id) in c.keys
    ensures forall k {:trigger TrimSpace(k)} | k in c.keys :: TrimSpace(k) in c.addresses
  {
    forall id | id in c.addresses ensures TrimSpace(id) in c.keys {
      assert c.Fault(id).None?;
    }
  }

  lemma CrossedSetsAgree(a: set<string>, k: set<string>)
    requires forall id {:trigger TrimSpace(id)} | id in a :: TrimSpace(id) in k
    requires forall id {:trigger TrimSpace(id)} | id in k :: TrimSpace(id) in a
    ensures TrimAll(a) <= TrimAll(k)
  {
    forall id | id in a ensures TrimSpace(id) in TrimAll(k) {
      TrimIdempotent(id);
      assert TrimSpace(TrimSpace(id)) in TrimAll(k);
    }
  }

  /** An accepted configuration names the same devices on both sides. */
  lemma AcceptedIDsAgree(c: Config)
    requires c.Acceptable()
    ensures TrimAll(c.addresses.Keys) == TrimAll(c.keys.Keys)
  {
    AcceptedIDsCross(c);
    CrossedSetsAgree(c.addresses.Keys, c.keys.Keys);
    CrossedSetsAgree(c.keys.Keys, c.addresses.Keys);
  }

  /** Keys are looked up by trimmed ID and orphans are sought among raw IDs, so an
      accepted configuration holds a padded device ID only beside its trimmed
      double: with distinct trimmed IDs every padded device ID is rejected. */
  lemma PaddedIDsNeedADouble(c: Config)
    requires c.Acceptable()
    ensures forall id | id in c.addresses :: TrimSpace(id) in c.addresses
    ensures c.DistinctTrimmedIDs() <==> forall id | id in c.addresses :: IsTrimmed(id)
  {
    AcceptedIDsCross(c);
    forall id | id in c.addresses
      ensures TrimSpace(id) in c.addresses && (TrimSpace(id) == id <==> IsTrimmed(id))
      ensures TrimSpace(TrimSpace(id)) == TrimSpace(id)
    {
      TrimIdempotent(id);
      assert TrimSpace(TrimSpace(id)) in c.addresses;
    }
  }

  /** Such a pair of doubles is accepted, and then two devices carry one ID. */
  lemma DoublesAreAccepted(padded: string, first: string, second: string, key: string,
                           parseAddress: AddressParser, parseKey: KeyParser)
    requires !IsTrimmed(padded) && TrimSpace(padded) != "" && first != "" && second != ""
    requires IsTrimmed(first) && IsTrimmed(second) && IsTrimmed(key)
    requires parseAddress(first).Some? && parseAddress(second).Some? && parseKey(key).Some?
    requires ToUpper(parseAddress(first).value.text) != ToUpper(parseAddress(second).value.text)
    ensures var id := TrimSpace(padded);
            var c := Config(map[id := first, padded := second], map[id := key], parseAddress, parseKey);
            c.Acceptable() && c.Entry(id).id == c.Entry(padded).id == id && c.Entry(id) != c.Entry(padded)
  {
    var id := TrimSpace(padded);
    TrimIdempotent(padded);
    TrimmedIsFixed(first);
    TrimmedIsFixed(second);
    TrimmedIsFixed(key);
  }

  /** An accepted configuration has one possible result, whatever the iteration
      orders, exactly when no two device IDs trim to the same text. */
  lemma ResultUniqueIff(c: Config)
    requires c.Acceptable()
    ensures c.DistinctTrimmedIDs() <==>
            forall a, b |
              IsListing(a, c.Entries(c.addresses.Keys), IDOf) &&
              IsListing(b, c.Entries(c.addresses.Keys), IDOf) :: a == b
  {
    var all := c.Entries(c.addresses.Keys);
    ListingUniqueIff(all, IDOf);
    if DistinctKeys(all, IDOf) {
      forall i, j | i in c.addresses && j in c.addresses && TrimSpace(i) == TrimSpace(j) ensures i == j {
        assert c.Entry(i) in all && c.Entry(j) in all;
        assert IDOf(c.Entry(i)) == IDOf(c.Entry(j));
      }
    }
    if c.DistinctTrimmedIDs() {
      assert DistinctKeys(all, IDOf);
    }
  }

  ghost predicate OneDevicePerAddress(devices: seq<Device>) {
    forall i, j | 0 <= i < j < |devices| :: devices[i].address != devices[j].address
  }

  /** The first device of a list with a given address. */
  function LinearSearch(devices: seq<Device>, address: string): Option<Device> {
    if devices == [] then None
    else if devices[0].address == address then Some(devices[0])
    else LinearSearch(devices[1..], address)
  }

  function Lookup(index: map<string, Device>, address: string): Option<Device> {
    if address in index then Some(index[address]) else None
  }

  /** The last device of a list with a given address. */
  function LastMatch(devices: seq<Device>, address: string): Option<Device> {
    if devices == [] then None
    else if devices[|devices| - 1].address == address then Some(devices[|devices| - 1])
    else LastMatch(devices[..|devices| - 1], address)
  }

  /** The byAddress map of NewCollector: a later device replaces an earlier one. */
  method IndexByAddress(devices: seq<Device>) returns (index: map<string, Device>)
    ensures forall a :: Lookup(index, a) == LastMatch(devices, a)
  {
    index := map[];
    for i := 0 to |devices|
      invariant forall a :: Lookup(index, a) == LastMatch(devices[..i], a)
    {
      assert devices[..i + 1][..i] == devices[..i];
      index := index[devices[i].address := devices[i]];
    }
    assert devices[..|devices|] == devices;
  }

  lemma {:induction false} LinearSearchFinds(devices: seq<Device>, i: nat)
    requires OneDevicePerAddress(devices) && i < |devices|
    ensures LinearSearch(devices, devices[i].address) == Some(devices[i])
  {
    if i > 0 { LinearSearchFinds(devices[1..], i - 1); }
  }

  lemma {:induction false} LinearSearchMisses(devices: seq<Device>, a: string)
    ensures LinearSearch(devices, a).None? <==> forall i | 0 <= i < |devices| :: devices[i].address != a
    ensures LinearSearch(devices, a).Some? ==>
              LinearSearch(devices, a).value in devices && LinearSearch(devices, a).value.address == a
  {
    if devices != [] { LinearSearchMisses(devices[1..], a); }
  }

  /** No later device has the address. */
  lemma {:induction false} LastMatchIsLast(devices: seq<Device>, a: string) returns (i: nat)
    requires LastMatch(devices, a).Some?
    ensures i < |devices| && devices[i] == LastMatch(devices, a).value && devices[i].address == a
    ensures forall j | i < j < |devices| :: devices[j].address != a
  {
    i := |devices| - 1;
    if devices[i].address != a {
      i := LastMatchIsLast(devices[..i], a);
    }
  }

  lemma {:induction false} LastMatchIs(devices: seq<Device>, a: string)
    ensures LastMatch(devices, a).None? <==> forall i | 0 <= i < |devices| :: devices[i].address != a
    ensures LastMatch(devices, a).Some? ==>
              LastMatch(devices, a).value in devices && LastMatch(devices, a).value.address == a
  {
    if devices != [] { LastMatchIs(devices[..|devices| - 1], a); }
  }

  /** With one device per address the last match is the first, misses included. */
  lemma LastIsFirst(devices: seq<Device>, a: string)
    requires OneDevicePerAddress(devices)
    ensures LastMatch(devices, a) == LinearSearch(devices, a)
  {
    LinearSearchMisses(devices, a);
    LastMatchIs(devices, a);
    if LastMatch(devices, a).Some? {
      var d := LastMatch(devices, a).value;
      var i :| 0 <= i < |devices| && devices[i] == d;
      LinearSearchFinds(devices, i);
    }
  }

  function AddressesOf(devices: seq<Device>): set<string> {
    set d | d in devices :: d.address
  }

  lemma {:induction false} OneAddressEach(devices: seq<Device>)
    requires OneDevicePerAddress(devices)
    ensures |AddressesOf(devices)| == |devices|
  {
    if devices != [] {
      var init, last := devices[..|devices| - 1], devices[|devices| - 1];
      OneAddressEach(init);
      assert devices == init + [last];
      assert AddressesOf(devices) == AddressesOf(init) + {last.address};
      assert last.address !in AddressesOf(init);
    }
  }

  ghost predicate DistinctDeviceIDs(devices: seq<Device>) {
    forall i, j | 0 <= i < j < |devices| :: devices[i].id != devices[j].id
  }

  /** Every entry is in the list, and nothing else is. */
  lemma ListedAre(c: Config, devices: seq<Device>)
    requires c.addresses != map[] && c.Parsed(Ok(devices))
    ensures forall id | id in c.addresses :: c.Entry(id) in devices
    ensures forall d | d in devices :: exists id | id in c.addresses :: d == c.Entry(id)
  {
    var all := c.Entries(c.addresses.Keys);
    forall id | id in c.addresses ensures c.Entry(id) in devices {
      assert c.Entry(id) in multiset(all) && c.Entry(id) in multiset(devices);
    }
    forall d | d in devices ensures exists id | id in c.addresses :: d == c.Entry(id) {
      assert d in multiset(devices) && d in multiset(all);
    }
  }

  lemma ParsedIDsDistinct(c: Config, devices: seq<Device>)
    requires c.addresses != map[] && c.Parsed(Ok(devices)) && c.DistinctTrimmedIDs()
    ensures DistinctDeviceIDs(devices)
  {
    ListedAre(c, devices);
    forall i, j | 0 <= i < j < |devices| ensures devices[i].id != devices[j].id {
      assert devices[i] in devices && devices[j] in devices;
      var p :| p in c.addresses && devices[i] == c.Entry(p);
      var q :| q in c.addresses && devices[j] == c.Entry(q);
      if devices[i] == devices[j] { CountedTwice(devices, i, j); }
    }
  }

  lemma DoubledIDsShow(c: Config, devices: seq<Device>, p: string, q: string)
    requires c.addresses != map[] && c.Parsed(Ok(devices))
    requires p in c.addresses && q in c.addresses && TrimSpace(p) == TrimSpace(q) && p != q
    ensures !DistinctDeviceIDs(devices)
  {
    ListedAre(c, devices);
    var i :| 0 <= i < |devices| && devices[i] == c.Entry(p);
    var j :| 0 <= j < |devices| && devices[j] == c.Entry(q);
    assert c.Normalised(p) != c.Normalised(q);
    assert devices[i].id == devices[j].id && i != j;
  }

  /** The devices of a parsed list have different IDs exactly when no two IDs of the
      configuration trim to the same text. */
  lemma ParsedIDsDistinctIff(c: Config, devices: seq<Device>)
    requires c.addresses != map[] && c.Parsed(Ok(devices))
    ensures DistinctDeviceIDs(devices) <==> c.DistinctTrimmedIDs()
  {
    if c.DistinctTrimmedIDs() {
      ParsedIDsDistinct(c, devices);
    } else {
      var p, q :| p in c.addresses && q in c.addresses && TrimSpace(p) == TrimSpace(q) && p != q;
      DoubledIDsShow(c, devices, p, q);
    }
  }

  /** Every list the parser can return has one device per address. */
  lemma ParsedAddressesDistinct(c: Config, devices: seq<Device>)
    requires c.addresses != map[] && c.Parsed(Ok(devices))
    ensures OneDevicePerAddress(devices)
  {
    var all := c.Entries(c.addresses.Keys);
    forall i, j | 0 <= i < j < |devices| ensures devices[i].address != devices[j].address {
      assert devices[i] in multiset(devices) && devices[j] in multiset(devices);
      var p :| p in c.addresses && c.Entry(p) == devices[i];
      var q :| q in c.addresses && c.Entry(q) == devices[j];
      if devices[i] == devices[j] {
        CountedTwice(devices, i, j);
      }
    }
  }

  /** The index NewCollector builds from a list the parser returned has one entry for
      every device, and looking an address up in it is searching the list, misses
      included. */
  lemma IndexAgreesWithList(c: Config, devices: seq<Device>, index: map<string, Device>)
    requires c.addresses != map[] && c.Parsed(Ok(devices))
    requires forall a :: Lookup(index, a) == LastMatch(devices, a)
    ensures |index| == |devices| == |c.addresses|
    ensures forall a :: Lookup(index, a) == LinearSearch(devices, a)
  {
    ParsedAddressesDistinct(c, devices);
    forall a ensures Lookup(index, a) == LinearSearch(devices, a) {
      LastIsFirst(devices, a);
    }
    forall a ensures a in index <==> a in AddressesOf(devices) {
      LastMatchIs(devices, a);
      assert Lookup(index, a).Some? <==> a in index;
    }
    assert index.Keys == AddressesOf(devices);
    OneAddressEach(devices);
    OneDevicePerEntry(c, c.addresses.Keys);
    assert |devices| == |multiset(devices)| == |multiset(c.Entries(c.addresses.Keys))|;
  }
}

/**
 The Victron collector (internal/victron/collector.go) and the writer behind its
 queue (cmd/litime-timescaledb-inserter/victron.go). One goroutine scans and
 publishes; another drains the queue, at any pace, while scans go on.
 */
module Collector {
  import opened Prelude
  import opened Text
  import opened Bluetooth
  import opened Devices
  import opened Tallies

  // ------------------------------------------------------------- the library

  const RECORD_SOLAR_CHARGER: nat := 0x01
  const RECORD_BATTERY_MONITOR: nat := 0x02

  datatype Record = Record(kind: nat, modelID: nat, body: seq<nat>)
  datatype SolarCharger = SolarCharger(values: seq<int>)
  datatype BatteryMonitor = BatteryMonitor(values: seq<int>)

  /** victronble and the address parser: any functions will do. */
  datatype Library = Library(
    companyID: nat,
    parseAddress: AddressParser,
    parseRecord: seq<nat> -> Option<Record>,
    decrypt: (Record, seq<nat>) -> Option<seq<nat>>,
    modelName: nat -> string,
    parseSolarCharger: seq<nat> -> Option<SolarCharger>,
    parseBatteryMonitor: seq<nat> -> Option<BatteryMonitor>)

  datatype VictronReading = VictronReading(
    deviceID: string, observedAt: int, modelID: nat, modelName: string, recordType: nat,
    solarCharger: Option<SolarCharger>, batteryMonitor: Option<BatteryMonitor>)

  /** Exactly one payload, the one the record type names. */
  predicate WellFormed(r: VictronReading) {
    if r.recordType == RECORD_SOLAR_CHARGER then r.solarCharger.Some? && r.batteryMonitor.None?
    else r.recordType == RECORD_BATTERY_MONITOR && r.solarCharger.None? && r.batteryMonitor.Some?
  }

  // ------------------------------------------------------- what a scan means

  /** The advertisement is instant readout that parses as this record. */
  ghost predicate Carries(lib: Library, found: Discovered, record: Record) {
    lib.companyID in found.manufacturerData &&
    lib.parseRecord(found.manufacturerData[lib.companyID]) == Some(record)
  }

  predicate Supported(record: Record) {
    record.kind == RECORD_SOLAR_CHARGER || record.kind == RECORD_BATTERY_MONITOR
  }

  /** The record's own parser makes nothing of the payload. */
  predicate Unreadable(lib: Library, record: Record, payload: seq<nat>) {
    (record.kind == RECORD_SOLAR_CHARGER && lib.parseSolarCharger(payload).None?) ||
    (record.kind == RECORD_BATTERY_MONITOR && lib.parseBatteryMonitor(payload).None?)
  }

  /** The reading is what the library says of the record, the payload and the time,
      and its payload what the record's own parser says, the other one being empty. */
  ghost predicate Tells(r: VictronReading, lib: Library, device: Device, record: Record, payload: seq<nat>, now: int) {
    && r.deviceID == device.id && r.observedAt == now
    && r.modelID == record.modelID && r.modelName == lib.modelName(record.modelID) && r.recordType == record.kind
    && (record.kind == RECORD_SOLAR_CHARGER ==>
          r.solarCharger == lib.parseSolarCharger(payload) && r.solarCharger.Some? && r.batteryMonitor.None?)
    && (record.kind == RECORD_BATTERY_MONITOR ==>
          r.batteryMonitor == lib.parseBatteryMonitor(payload) && r.batteryMonitor.Some? && r.solarCharger.None?)
  }

  /** The ways one advertisement of a configured device can end. */
  datatype Outcome = NotSeen | Unsupported | DecryptFailed | DecodeFailed | Decoded(reading: VictronReading)

  function RecordOf(lib: Library, found: Discovered): Option<Record> {
    if lib.companyID in found.manufacturerData then lib.parseRecord(found.manufacturerData[lib.companyID]) else None
  }

  function Classify(lib: Library, device: Device, found: Discovered, now: int): (o: Outcome)
    ensures o.Decoded? ==> WellFormed(o.reading) && o.reading.deviceID == device.id
    ensures o.NotSeen? <==> RecordOf(lib, found).None?
    ensures o.NotSeen? <==> !exists record :: Carries(lib, found, record)
    ensures forall record | Carries(lib, found, record) ::
              var payload := lib.decrypt(record, device.key);
              && !o.NotSeen?
              && (o.Unsupported? <==> !Supported(record))
              && (o.DecryptFailed? <==> Supported(record) && payload.None?)
              && (o.DecodeFailed? <==> Supported(record) && payload.Some? && Unreadable(lib, record, payload.value))
              && (o.Decoded? ==> payload.Some? && Tells(o.reading, lib, device, record, payload.value, now))
  {
    var record := RecordOf(lib, found);
    if record.None? then NotSeen
    else
      assert Carries(lib, found, record.value);
      var kind, model := record.value.kind, record.value.modelID;
      if kind != RECORD_SOLAR_CHARGER && kind != RECORD_BATTERY_MONITOR then Unsupported
      else
        var payload := lib.decrypt(record.value, device.key);
        if payload.None? then DecryptFailed
        else if kind == RECORD_SOLAR_CHARGER then
          var charger := lib.parseSolarCharger(payload.value);
          if charger.None? then DecodeFailed
          else Decoded(VictronReading(device.id, now, model, lib.modelName(model), kind, charger, None))
        else
          var monitor := lib.parseBatteryMonitor(payload.value);
          if monitor.None? then DecodeFailed
          else Decoded(VictronReading(device.id, now, model, lib.modelName(model), kind, None, monitor))
  }

  function DeviceFor(byAddress: map<string, Device>, found: Discovered): Option<Device> {
    Lookup(byAddress, ToUpper(found.address.text))
  }

  /** With the index of a parsed list, an entry belongs to the one device of the list
      whose address is the entry's but for the case of letters. */
  lemma DeviceForIgnoresCase(config: Config, devices: seq<Device>, byAddress: map<string, Device>, found: Discovered,
                             d: Device)
    requires config.addresses != map[] && config.Parsed(Ok(devices))
    requires forall a :: Lookup(byAddress, a) == LastMatch(devices, a)
    ensures DeviceFor(byAddress, found) == Some(d) <==>
            d in devices && EqualButCase(d.address, found.address.text)
  {
    var a := ToUpper(found.address.text);
    IndexAgreesWithList(config, devices, byAddress);
    assert DeviceFor(byAddress, found) == LinearSearch(devices, a);
    LinearSearchMisses(devices, a);
    if d in devices {
      UpperAddress(config, devices, d);
      ToUpperFoldsCase(d.address, found.address.text);
      FoundAtItsAddress(config, devices, d);
    }
  }

  lemma UpperAddress(config: Config, devices: seq<Device>, d: Device)
    requires config.addresses != map[] && config.Parsed(Ok(devices)) && d in devices
    ensures ToUpper(d.address) == d.address
  {
    var rawID := ListedDescribes(config, devices, d);
  }

  lemma FoundAtItsAddress(config: Config, devices: seq<Device>, d: Device)
    requires config.addresses != map[] && config.Parsed(Ok(devices)) && d in devices
    ensures LinearSearch(devices, d.address) == Some(d)
  {
    ParsedAddressesDistinct(config, devices);
    var i :| 0 <= i < |devices| && devices[i] == d;
    LinearSearchFinds(devices, i);
  }

  /** The IDs for which a scan result holds readable state. */
  function SeenIn(lib: Library, byAddress: map<string, Device>, results: seq<Discovered>): set<string> {
    if results == [] then {}
    else
      var last := results[|results| - 1];
      var device := DeviceFor(byAddress, last);
      SeenIn(lib, byAddress, results[..|results| - 1]) +
      if device.Some? && RecordOf(lib, last).Some? then {device.value.id} else {}
  }

  /** A call of handle: for which device, and what became of the advertisement. */
  datatype Call = Call(id: string, outcome: Outcome)

  /** The calls a scan result makes, in order. */
  function CallsIn(lib: Library, byAddress: map<string, Device>, results: seq<Discovered>, now: int): seq<Call> {
    if results == [] then []
    else
      var last := results[|results| - 1];
      var device := DeviceFor(byAddress, last);
      CallsIn(lib, byAddress, results[..|results| - 1], now) +
      if device.Some? then [Call(device.value.id, Classify(lib, device.value, last, now))] else []
  }

  /** One call for every entry whose address belongs to a configured device, in scan
      order. */
  lemma {:induction false} CallsAre(lib: Library, byAddress: map<string, Device>, results: seq<Discovered>, now: int)
    returns (ks: seq<nat>)
    ensures |ks| == |CallsIn(lib, byAddress, results, now)| && forall i, j | 0 <= i < j < |ks| :: ks[i] < ks[j]
    ensures forall i | 0 <= i < |ks| ::
              && ks[i] < |results| && DeviceFor(byAddress, results[ks[i]]).Some?
              && var device := DeviceFor(byAddress, results[ks[i]]).value;
                 CallsIn(lib, byAddress, results, now)[i] ==
                 Call(device.id, Classify(lib, device, results[ks[i]], now))
    ensures forall k | 0 <= k < |results| && DeviceFor(byAddress, results[k]).Some? :: k in ks
  {
    if results == [] {
      ks := [];
    } else {
      var n := |results| - 1;
      ks := CallsAre(lib, byAddress, results[..n], now);
      if DeviceFor(byAddress, results[n]).Some? { ks := ks + [n]; }
    }
  }

  datatype CallKind = Sighting | UnsupportedType | Undecryptable | Undecodable | Readable

  predicate IsKind(c: Call, k: CallKind, id: string) {
    c.id == id &&
    match k
    case Sighting => !c.outcome.NotSeen?
    case UnsupportedType => c.outcome.Unsupported?
    case Undecryptable => c.outcome.DecryptFailed?
    case Undecodable => c.outcome.DecodeFailed?
    case Readable => c.outcome.Decoded?
  }

  /** How many of the calls are of a kind, for one device. */
  function NumberOf(calls: seq<Call>, k: CallKind, id: string): nat {
    if calls == [] then 0 else NumberOf(calls[..|calls| - 1], k, id) + One(IsKind(calls[|calls| - 1], k, id))
  }

  /** A call that counts as a sighting is of exactly one of the other kinds. */
  lemma {:induction false} SightingsSplit(calls: seq<Call>, id: string)
    ensures NumberOf(calls, Sighting, id) ==
            NumberOf(calls, UnsupportedType, id) + NumberOf(calls, Undecryptable, id) +
            NumberOf(calls, Undecodable, id) + NumberOf(calls, Readable, id)
  {
    if calls != [] { SightingsSplit(calls[..|calls| - 1], id); }
  }

  lemma {:induction false} NumberOfConcat(xs: seq<Call>, ys: seq<Call>, k: CallKind, id: string)
    ensures NumberOf(xs + ys, k, id) == NumberOf(xs, k, id) + NumberOf(ys, k, id)
  {
    if ys == [] {
      assert xs + ys == xs;
    } else {
      assert (xs + ys)[..|xs + ys| - 1] == xs + ys[..|ys| - 1];
      NumberOfConcat(xs, ys[..|ys| - 1], k, id);
    }
  }

  /** The readings of one device in a sequence. */
  function ReadingsOf(rs: seq<VictronReading>, id: string): nat {
    if rs == [] then 0 else ReadingsOf(rs[..|rs| - 1], id) + One(rs[|rs| - 1].deviceID == id)
  }

  lemma {:induction false} ReadingsOfConcat(xs: seq<VictronReading>, ys: seq<VictronReading>, id: string)
    ensures ReadingsOf(xs + ys, id) == ReadingsOf(xs, id) + ReadingsOf(ys, id)
  {
    if ys == [] {
      assert xs + ys == xs;
    } else {
      assert (xs + ys)[..|xs + ys| - 1] == xs + ys[..|ys| - 1];
      ReadingsOfConcat(xs, ys[..|ys| - 1], id);
    }
  }

  /** The readings counter counts what was accepted, device by device. */
  ghost predicate CountsReadings(counter: Tally, accepted: seq<VictronReading>) {
    forall id :: Count(counter, id) == ReadingsOf(accepted, id)
  }

  lemma OneMoreReading(counter: Tally, accepted: seq<VictronReading>, r: VictronReading)
    requires CountsReadings(counter, accepted)
    ensures CountsReadings(Bump(counter, r.deviceID), accepted + [r])
  {
    assert (accepted + [r])[..|accepted|] == accepted;
    forall id ensures Count(Bump(counter, r.deviceID), id) == ReadingsOf(accepted + [r], id) {
      assert Count(counter, id) == ReadingsOf(accepted, id);
    }
  }

  /** How many configured devices carry an ID. */
  function Multiplicity(devices: seq<Device>, id: string): nat {
    if devices == [] then 0
    else Multiplicity(devices[..|devices| - 1], id) + One(devices[|devices| - 1].id == id)
  }

  lemma OneSighted(lib: Library, byAddress: map<string, Device>, result: Discovered, now: int, id: string)
    ensures id in SeenIn(lib, byAddress, [result]) <==>
            NumberOf(CallsIn(lib, byAddress, [result], now), Sighting, id) > 0
  {
    OneResult(lib, byAddress, result, now);
    var device := DeviceFor(byAddress, result);
    if device.Some? {
      NumberOfOne(Call(device.value.id, Classify(lib, device.value, result, now)), Sighting, id);
    }
  }

  /** A scan saw an ID exactly if one of its calls for it counts as a sighting. */
  lemma {:induction false} SeenMeansSighted(lib: Library, byAddress: map<string, Device>, results: seq<Discovered>,
                                            now: int, id: string)
    ensures id in SeenIn(lib, byAddress, results) <==>
            NumberOf(CallsIn(lib, byAddress, results, now), Sighting, id) > 0
  {
    if results != [] {
      var n := |results| - 1;
      assert results[..n + 1] == results;
      SeenMeansSighted(lib, byAddress, results[..n], now, id);
      OneMoreResult(lib, byAddress, results, n, now);
      OneSighted(lib, byAddress, results[n], now, id);
      NumberOfConcat(CallsIn(lib, byAddress, results[..n], now), CallsIn(lib, byAddress, [results[n]], now),
                     Sighting, id);
    }
  }

  // -------------------------------------------------------------- the metrics

  datatype Metrics = Metrics(readings: Tally, missed: Tally, unsupported: Tally, decryptFailures: Tally,
                             decodeFailures: Tally, dropped: Tally, scanFailures: nat)

  const NO_METRICS: Metrics := Metrics(map[], map[], map[], map[], map[], map[], 0)

  /** A completed scan either saw an ID or counted it missed, once for every device
      that carries it. */
  ghost predicate ScansBalanced(devices: seq<Device>, missed: Tally, seenScans: Tally, completed: nat) {
    forall id ::
      && Count(seenScans, id) <= completed
      && Count(missed, id) == Multiplicity(devices, id) * (completed - Count(seenScans, id))
  }

  /** The counter an outcome moves. */
  function Moved(m: Metrics, o: Outcome, id: string, fits: bool): Metrics {
    m.(unsupported := BumpIf(m.unsupported, id, o.Unsupported?),
       decryptFailures := BumpIf(m.decryptFailures, id, o.DecryptFailed?),
       decodeFailures := BumpIf(m.decodeFailures, id, o.DecodeFailed?),
       dropped := BumpIf(m.dropped, id, o.Decoded? && !fits),
       readings := BumpIf(m.readings, id, o.Decoded? && fits))
  }

  /** What an outcome adds to the accepted readings. */
  function AcceptedBy(accepted: seq<VictronReading>, o: Outcome, fits: bool): seq<VictronReading> {
    if o.Decoded? && fits then accepted + [o.reading] else accepted
  }

  /** The counters of calls, together with how many counted as sightings. */
  datatype Ledger = Ledger(metrics: Metrics, seenCalls: Tally)

  /** What a call moves. */
  function AfterCall(l: Ledger, c: Call, fits: bool): Ledger {
    Ledger(Moved(l.metrics, c.outcome, c.id, fits), BumpIf(l.seenCalls, c.id, !c.outcome.NotSeen?))
  }

  /** What handling an advertisement does, from the library's answers alone: which one
      counter moves, and the reading that is queued if the queue is open and has room. */
  ghost predicate HandledAs(lib: Library, device: Device, found: Discovered, now: int, fits: bool,
                            m: Metrics, m': Metrics, queue: seq<VictronReading>, queue': seq<VictronReading>)
  {
    && m'.missed == m.missed && m'.scanFailures == m.scanFailures
    && ((forall record :: !Carries(lib, found, record)) ==> m' == m && queue' == queue)
    && (forall record | Carries(lib, found, record) ::
          var payload := lib.decrypt(record, device.key);
          var readable := Supported(record) && payload.Some? && !Unreadable(lib, record, payload.value);
          && m'.unsupported == BumpIf(m.unsupported, device.id, !Supported(record))
          && m'.decryptFailures == BumpIf(m.decryptFailures, device.id, Supported(record) && payload.None?)
          && m'.decodeFailures == BumpIf(m.decodeFailures, device.id, Supported(record) && payload.Some? && !readable)
          && m'.dropped == BumpIf(m.dropped, device.id, readable && !fits)
          && m'.readings == BumpIf(m.readings, device.id, readable && fits)
          && (if readable && fits then
                exists r :: queue' == queue + [r] && Tells(r, lib, device, record, payload.value, now)
              else queue' == queue))
  }

  lemma AfterCallHandles(lib: Library, device: Device, found: Discovered, now: int, fits: bool, l: Ledger,
                         queue: seq<VictronReading>)
    ensures var o := Classify(lib, device, found, now);
            HandledAs(lib, device, found, now, fits, l.metrics, AfterCall(l, Call(device.id, o), fits).metrics,
                      queue, AcceptedBy(queue, o, fits))
  {
  }

  /** Every call that counts as a sighting is in exactly one counter. */
  ghost predicate CallsBalanced(l: Ledger) {
    forall id :: CallsBalancedFor(l, id)
  }

  ghost predicate CallsBalancedFor(l: Ledger, id: string) {
    Count(l.seenCalls, id) ==
    Count(l.metrics.unsupported, id) + Count(l.metrics.decryptFailures, id) + Count(l.metrics.decodeFailures, id) +
    Count(l.metrics.dropped, id) + Count(l.metrics.readings, id)
  }

  /** From one ledger to the other exactly these calls were counted. */
  ghost predicate Counted(before: Ledger, after: Ledger, calls: seq<Call>) {
    forall id :: CountedFor(before, after, calls, id)
  }

  ghost predicate CountedFor(before: Ledger, after: Ledger, calls: seq<Call>, id: string) {
    var m, m' := before.metrics, after.metrics;
    && Count(after.seenCalls, id) == Count(before.seenCalls, id) + NumberOf(calls, Sighting, id)
    && Count(m'.unsupported, id) == Count(m.unsupported, id) + NumberOf(calls, UnsupportedType, id)
    && Count(m'.decryptFailures, id) == Count(m.decryptFailures, id) + NumberOf(calls, Undecryptable, id)
    && Count(m'.decodeFailures, id) == Count(m.decodeFailures, id) + NumberOf(calls, Undecodable, id)
    && Count(m'.dropped, id) + Count(m'.readings, id) ==
       Count(m.dropped, id) + Count(m.readings, id) + NumberOf(calls, Readable, id)
  }

  /** A call adds to the readings counter exactly when its reading is accepted. */
  lemma CallCountsReading(l: Ledger, accepted: seq<VictronReading>, c: Call, fits: bool)
    requires CountsReadings(l.metrics.readings, accepted)
    requires c.outcome.Decoded? ==> c.outcome.reading.deviceID == c.id
    ensures CountsReadings(AfterCall(l, c, fits).metrics.readings, AcceptedBy(accepted, c.outcome, fits))
  {
    if c.outcome.Decoded? && fits { OneMoreReading(l.metrics.readings, accepted, c.outcome.reading); }
  }

  lemma NothingCounted(l: Ledger)
    ensures Counted(l, l, [])
  {
  }

  lemma NumberOfOne(c: Call, k: CallKind, id: string)
    ensures NumberOf([c], k, id) == One(IsKind(c, k, id))
  {
    assert [c][..0] == [];
  }

  lemma OneCallFor(l: Ledger, c: Call, fits: bool, id: string)
    ensures CountedFor(l, AfterCall(l, c, fits), [c], id)
  {
    var m, o := l.metrics, c.outcome;
    NumberOfOne(c, Sighting, id);
    NumberOfOne(c, UnsupportedType, id);
    NumberOfOne(c, Undecryptable, id);
    NumberOfOne(c, Undecodable, id);
    NumberOfOne(c, Readable, id);
    BumpIfCounts(l.seenCalls, c.id, !o.NotSeen?, id);
    BumpIfCounts(m.unsupported, c.id, o.Unsupported?, id);
    BumpIfCounts(m.decryptFailures, c.id, o.DecryptFailed?, id);
    BumpIfCounts(m.decodeFailures, c.id, o.DecodeFailed?, id);
    BumpIfCounts(m.dropped, c.id, o.Decoded? && !fits, id);
    BumpIfCounts(m.readings, c.id, o.Decoded? && fits, id);
  }

  /** What one call moves is what counts it. */
  lemma OneCall(l: Ledger, c: Call, fits: bool)
    ensures Counted(l, AfterCall(l, c, fits), [c])
  {
    forall id ensures CountedFor(l, AfterCall(l, c, fits), [c], id) {
      OneCallFor(l, c, fits, id);
    }
  }

  lemma CountedOnFor(a: Ledger, b: Ledger, c: Ledger, xs: seq<Call>, ys: seq<Call>, id: string)
    requires CountedFor(a, b, xs, id) && CountedFor(b, c, ys, id)
    ensures CountedFor(a, c, xs + ys, id)
  {
    NumberOfConcat(xs, ys, Sighting, id);
    NumberOfConcat(xs, ys, UnsupportedType, id);
    NumberOfConcat(xs, ys, Undecryptable, id);
    NumberOfConcat(xs, ys, Undecodable, id);
    NumberOfConcat(xs, ys, Readable, id);
  }

  lemma CountedOn(a: Ledger, b: Ledger, c: Ledger, xs: seq<Call>, ys: seq<Call>)
    requires Counted(a, b, xs) && Counted(b, c, ys)
    ensures Counted(a, c, xs + ys)
  {
    forall id ensures CountedFor(a, c, xs + ys, id) {
      assert CountedFor(a, b, xs, id) && CountedFor(b, c, ys, id);
      CountedOnFor(a, b, c, xs, ys, id);
    }
  }

  /** The other counters are no part of this. */
  lemma OthersKeepCount(a: Ledger, b: Ledger, m: Metrics, calls: seq<Call>)
    requires Counted(a, b, calls) && m == b.metrics.(missed := m.missed, scanFailures := m.scanFailures)
    ensures Counted(a, b.(metrics := m), calls)
  {
    forall id ensures CountedFor(a, b.(metrics := m), calls, id) {
      assert CountedFor(a, b, calls, id);
    }
  }

  /** Counting calls keeps the balance. */
  lemma CountingKeepsBalance(before: Ledger, after: Ledger, calls: seq<Call>)
    requires CallsBalanced(before) && Counted(before, after, calls)
    ensures CallsBalanced(after)
  {
    forall id ensures CallsBalancedFor(after, id) {
      assert CallsBalancedFor(before, id) && CountedFor(before, after, calls, id);
      SightingsSplit(calls, id);
    }
  }

  /** A scan that saw some IDs and counted the other devices missed. */
  lemma OneMoreScan(devices: seq<Device>, missed: Tally, missed': Tally, seenScans: Tally, completed: nat,
                    seen: set<string>)
    requires ScansBalanced(devices, missed, seenScans, completed)
    requires forall id :: Count(missed', id) == Count(missed, id) + if id in seen then 0 else Multiplicity(devices, id)
    ensures ScansBalanced(devices, missed', Add(seenScans, seen), completed + 1)
  {
    forall id
      ensures Count(Add(seenScans, seen), id) <= completed + 1
      ensures Count(missed', id) == Multiplicity(devices, id) * (completed + 1 - Count(Add(seenScans, seen), id))
    {
      assert Count(Add(seenScans, seen), id) == Count(seenScans, id) + One(id in seen);
      var n := Multiplicity(devices, id);
      assert Count(missed, id) == n * (completed - Count(seenScans, id));
      assert n * (completed - Count(seenScans, id) + 1) == n * (completed - Count(seenScans, id)) + n;
    }
  }

  function Add(t: Tally, ids: set<string>): Tally {
    map id | id in t.Keys + ids :: Count(t, id) + One(id in ids)
  }

  // ----------------------------------------------------------- the collector

  /** What the radio and the drainer do around one scan: the result, whether the
      context was cancelled when a failure is looked at, how many readings the
      drainer takes before each entry is handled, and the time of handling. */
  datatype Scan = Scan(result: Result<seq<Discovered>, ()>, cancelled: bool, takes: seq<nat>, now: int)

  /** The scans a run makes: the first, and one for every tick before the end. */
  function ScansMade(first: Scan, ticks: seq<Option<Scan>>): seq<Scan> {
    if ticks == [] then [first]
    else
      var before, last := ticks[..|ticks| - 1], ticks[|ticks| - 1];
      ScansMade(first, before) + if last.None? || None in before then [] else [last.value]
  }

  function CompletedIn(scans: seq<Scan>): nat {
    if scans == [] then 0 else CompletedIn(scans[..|scans| - 1]) + One(scans[|scans| - 1].result.Ok?)
  }

  /** The first scan, then those of the ticks chosen before the context was, in order. */
  lemma {:induction false} ScansMadeAre(first: Scan, ticks: seq<Option<Scan>>) returns (n: nat)
    ensures n <= |ticks| && (forall i | 0 <= i < n :: ticks[i].Some?) && (n < |ticks| ==> ticks[n].None?)
    ensures |ScansMade(first, ticks)| == n + 1 && ScansMade(first, ticks)[0] == first
    ensures forall i | 0 <= i < n :: ScansMade(first, ticks)[i + 1] == ticks[i].value
  {
    if ticks == [] {
      n := 0;
    } else {
      var last := |ticks| - 1;
      n := ScansMadeAre(first, ticks[..last]);
      if n < last {
        assert ticks[n].None? && None in ticks[..last];
      } else {
        assert None !in ticks[..last];
        if ticks[last].Some? { n := n + 1; }
      }
    }
  }

  /** In how many completed scans each ID was seen. */
  function SeenOver(lib: Library, byAddress: map<string, Device>, before: Tally, scans: seq<Scan>): Tally {
    if scans == [] then before
    else
      SeenAfter(lib, byAddress, SeenOver(lib, byAddress, before, scans[..|scans| - 1]), scans[|scans| - 1])
  }

  function SeenAfter(lib: Library, byAddress: map<string, Device>, before: Tally, scan: Scan): Tally {
    if scan.result.Ok? then Add(before, SeenIn(lib, byAddress, scan.result.value)) else before
  }

  /** The calls of all completed scans, in order. */
  function CallsOver(lib: Library, byAddress: map<string, Device>, scans: seq<Scan>): seq<Call> {
    if scans == [] then []
    else
      var last := scans[|scans| - 1];
      CallsOver(lib, byAddress, scans[..|scans| - 1]) + CallsOf(lib, byAddress, last)
  }

  function CallsOf(lib: Library, byAddress: map<string, Device>, scan: Scan): seq<Call> {
    if scan.result.Ok? then CallsIn(lib, byAddress, scan.result.value, scan.now) else []
  }

  /** How many completed scans saw an ID. */
  function ScansSeeing(lib: Library, byAddress: map<string, Device>, scans: seq<Scan>, id: string): nat {
    if scans == [] then 0
    else
      var last := scans[|scans| - 1];
      ScansSeeing(lib, byAddress, scans[..|scans| - 1], id) +
      One(last.result.Ok? && id in SeenIn(lib, byAddress, last.result.value))
  }

  lemma {:induction false} SeenOverCounts(lib: Library, byAddress: map<string, Device>, before: Tally,
                                          scans: seq<Scan>, id: string)
    ensures Count(SeenOver(lib, byAddress, before, scans), id) ==
            Count(before, id) + ScansSeeing(lib, byAddress, scans, id)
  {
    if scans != [] { SeenOverCounts(lib, byAddress, before, scans[..|scans| - 1], id); }
  }

  /** Everything that is counted, and what a completed scan adds to it. */
  datatype Totals = Totals(books: Ledger, seenScans: Tally, completed: nat)

  /** From the one to the other exactly these scans were made. */
  ghost predicate Scanned(lib: Library, byAddress: map<string, Device>, before: Totals, after: Totals,
                          scans: seq<Scan>)
  {
    && after.completed == before.completed + CompletedIn(scans)
    && after.seenScans == SeenOver(lib, byAddress, before.seenScans, scans)
    && Counted(before.books, after.books, CallsOver(lib, byAddress, scans))
  }

  lemma ScannedOnce(lib: Library, byAddress: map<string, Device>, before: Totals, after: Totals, scan: Scan)
    ensures Scanned(lib, byAddress, before, after, [scan]) <==>
            && after.completed == before.completed + One(scan.result.Ok?)
            && after.seenScans == SeenAfter(lib, byAddress, before.seenScans, scan)
            && Counted(before.books, after.books, CallsOf(lib, byAddress, scan))
  {
    var none: seq<Scan> := [];
    AnotherScan(lib, byAddress, before.seenScans, none, scan);
    assert none + [scan] == [scan];
    assert CallsOver(lib, byAddress, none) + CallsOf(lib, byAddress, scan) == CallsOf(lib, byAddress, scan);
  }

  ghost predicate Balanced(devices: seq<Device>, t: Totals) {
    CallsBalanced(t.books) && ScansBalanced(devices, t.books.metrics.missed, t.seenScans, t.completed)
  }

  /** A scan that fails moves nothing but its own counter. */
  lemma FailedScan(devices: seq<Device>, lib: Library, byAddress: map<string, Device>, t: Totals, m: Metrics,
                   scan: Scan)
    requires Balanced(devices, t) && scan.result.Err? && m == t.books.metrics.(scanFailures := m.scanFailures)
    ensures var after := t.(books := t.books.(metrics := m));
            Balanced(devices, after) && Scanned(lib, byAddress, t, after, [scan])
  {
    var after := t.(books := t.books.(metrics := m));
    NothingCounted(t.books);
    OthersKeepCount(t.books, t.books, m, []);
    CountingKeepsBalance(t.books, after.books, []);
    ScannedOnce(lib, byAddress, t, after, scan);
  }

  /** A completed one, once its results are handled and the rest is counted missed. */
  lemma CompletedScan(devices: seq<Device>, lib: Library, byAddress: map<string, Device>, t: Totals,
                      handled: Ledger, m: Metrics, scan: Scan, seen: set<string>)
    requires Balanced(devices, t) && scan.result.Ok? && seen == SeenIn(lib, byAddress, scan.result.value)
    requires Counted(t.books, handled, CallsOf(lib, byAddress, scan))
    requires m == handled.metrics.(missed := m.missed) && handled.metrics.missed == t.books.metrics.missed
    requires forall id :: Count(m.missed, id) ==
                          Count(handled.metrics.missed, id) + if id in seen then 0 else Multiplicity(devices, id)
    ensures var after := Totals(handled.(metrics := m), Add(t.seenScans, seen), t.completed + 1);
            Balanced(devices, after) && Scanned(lib, byAddress, t, after, [scan])
  {
    var after := Totals(handled.(metrics := m), Add(t.seenScans, seen), t.completed + 1);
    OthersKeepCount(t.books, handled, m, CallsOf(lib, byAddress, scan));
    CountingKeepsBalance(t.books, after.books, CallsOf(lib, byAddress, scan));
    OneMoreScan(devices, t.books.metrics.missed, m.missed, t.seenScans, t.completed, seen);
    ScannedOnce(lib, byAddress, t, after, scan);
  }

  lemma NothingScanned(lib: Library, byAddress: map<string, Device>, a: Totals, b: Totals, c: Totals)
    requires Scanned(lib, byAddress, a, b, []) && Scanned(lib, byAddress, b, c, [])
    ensures Scanned(lib, byAddress, a, c, [])
  {
    var none: seq<Call> := [];
    CountedOn(a.books, b.books, c.books, none, none);
    assert none + none == none;
  }

  lemma ScannedOn(lib: Library, byAddress: map<string, Device>, a: Totals, b: Totals, c: Totals,
                  scans: seq<Scan>, scan: Scan)
    requires Scanned(lib, byAddress, a, b, scans) && Scanned(lib, byAddress, b, c, [scan])
    ensures Scanned(lib, byAddress, a, c, scans + [scan])
  {
    ScannedOnce(lib, byAddress, b, c, scan);
    AnotherScan(lib, byAddress, a.seenScans, scans, scan);
    CountedOn(a.books, b.books, c.books, CallsOver(lib, byAddress, scans), CallsOf(lib, byAddress, scan));
  }

  class Collector {
    const devices: seq<Device>
    const byAddress: map<string, Device>
    const capacity: nat
    const lib: Library
    var readings: seq<VictronReading>
    var closed: bool
    var metrics: Metrics
    var handed: seq<VictronReading>
    ghost var accepted: seq<VictronReading>
    ghost var seenCalls: Tally
    ghost var seenScans: Tally
    ghost var completed: nat
    /** Readings offered after the queue was closed. */
    ghost var refused: nat

    /** What the drainer got, then what is queued, is what was accepted. */
    ghost predicate InOrder()
      reads this
    {
      |readings| <= capacity && handed + readings == accepted
    }

    ghost predicate QueueSound()
      reads this
    {
      InOrder() && forall r | r in accepted :: WellFormed(r)
    }

    ghost predicate ReadingsCounted()
      reads this
    {
      CountsReadings(metrics.readings, accepted)
    }

    ghost function Books(): Ledger
      reads this
    {
      Ledger(metrics, seenCalls)
    }

    ghost function Sums(): Totals
      reads this
    {
      Totals(Books(), seenScans, completed)
    }

    ghost predicate Valid()
      reads this
    {
      QueueSound() && ReadingsCounted() && Balanced(devices, Sums())
    }

    constructor (devices: seq<Device>, bufferSize: int, lib: Library)
      ensures Valid() && !closed && readings == [] && handed == [] && refused == 0
      ensures this.devices == devices && this.lib == lib
      ensures Books() == Ledger(NO_METRICS, map[]) && seenScans == map[] && completed == 0
      ensures capacity == (if bufferSize <= 0 then 64 else bufferSize)
      ensures forall a :: Lookup(byAddress, a) == LastMatch(devices, a)
    {
      var index := IndexByAddress(devices);
      this.devices := devices;
      byAddress := index;
      capacity := if bufferSize <= 0 then 64 else bufferSize;
      this.lib := lib;
      readings, handed, closed := [], [], false;
      metrics := NO_METRICS;
      accepted, seenCalls, seenScans, completed, refused := [], map[], map[], 0, 0;
    }

    method Publish(reading: VictronReading) returns (ok: bool)
      requires InOrder()
      modifies this`readings, this`accepted, this`refused
      ensures InOrder()
      ensures refused == old(refused) + One(closed)
      ensures ok <==> !closed && |old(readings)| < capacity
      ensures readings == old(readings) + (if ok then [reading] else [])
      ensures accepted == old(accepted) + (if ok then [reading] else [])
    {
      if closed {
        refused := refused + 1;
        return false;
      }
      if |readings| < capacity {
        readings := readings + [reading];
        accepted := accepted + [reading];
        return true;
      }
      return false;
    }

    /** The drainer receives up to n readings. */
    method Drain(n: nat)
      requires InOrder()
      modifies this`readings, this`handed
      ensures InOrder()
      ensures var k := if n < |old(readings)| then n else |old(readings)|;
              readings == old(readings)[k..] && handed == old(handed) + old(readings)[..k]
    {
      var k := if n < |readings| then n else |readings|;
      assert readings == readings[..k] + readings[k..];
      handed, readings := handed + readings[..k], readings[k..];
    }

    /** One advertisement of a configured device. It counts as a sighting exactly
        when it parses as instant readout, and then moves exactly the counter of
        its outcome, by one, for this device alone. */
    method Handle(device: Device, found: Discovered, now: int) returns (seen: bool)
      requires QueueSound()
      modifies this`readings, this`accepted, this`metrics, this`seenCalls, this`refused
      ensures QueueSound()
      ensures seen <==> RecordOf(lib, found).Some?
      ensures !closed ==> refused == old(refused)
      ensures var o := Classify(lib, device, found, now);
              var fits := !closed && |old(readings)| < capacity;
              && readings == AcceptedBy(old(readings), o, fits)
              && accepted == AcceptedBy(old(accepted), o, fits)
              && Books() == AfterCall(old(Books()), Call(device.id, o), fits)
      ensures HandledAs(lib, device, found, now, !closed && |old(readings)| < capacity,
                        old(metrics), metrics, old(readings), readings)
    {
      AfterCallHandles(lib, device, found, now, !closed && |readings| < capacity, Books(), readings);
      if lib.companyID !in found.manufacturerData {
        return false;
      }
      var data := found.manufacturerData[lib.companyID];
      var record := lib.parseRecord(data);
      if record.None? {
        return false;
      }
      seenCalls := Bump(seenCalls, device.id);

      var kind := record.value.kind;
      if kind != RECORD_SOLAR_CHARGER && kind != RECORD_BATTERY_MONITOR {
        metrics := metrics.(unsupported := Bump(metrics.unsupported, device.id));
        return true;
      }

      var payload := lib.decrypt(record.value, device.key);
      if payload.None? {
        metrics := metrics.(decryptFailures := Bump(metrics.decryptFailures, device.id));
        return true;
      }

      var model := record.value.modelID;
      var reading := VictronReading(device.id, now, model, lib.modelName(model), kind, None, None);
      if kind == RECORD_SOLAR_CHARGER {
        var charger := lib.parseSolarCharger(payload.value);
        if charger.None? {
          metrics := metrics.(decodeFailures := Bump(metrics.decodeFailures, device.id));
          return true;
        }
        reading := reading.(solarCharger := charger);
      } else {
        var monitor := lib.parseBatteryMonitor(payload.value);
        if monitor.None? {
          metrics := metrics.(decodeFailures := Bump(metrics.decodeFailures, device.id));
          return true;
        }
        reading := reading.(batteryMonitor := monitor);
      }

      assert WellFormed(reading) && Classify(lib, device, found, now) == Decoded(reading);
      var ok := Publish(reading);
      if !ok {
        metrics := metrics.(dropped := Bump(metrics.dropped, device.id));
        return true;
      }
      metrics := metrics.(readings := Bump(metrics.readings, device.id));
      return true;
    }

    ghost predicate Scannable() {
      exists d | d in devices :: lib.parseAddress(d.address).Some?
    }

    /** The addresses to scan for; one that does not parse is left out. */
    method ScanAddresses() returns (addresses: seq<Address>)
      ensures addresses != [] <==> Scannable()
    {
      addresses := [];
      for i := 0 to |devices|
        invariant addresses == [] <==> forall d | d in devices[..i] :: lib.parseAddress(d.address).None?
      {
        assert devices[..i + 1] == devices[..i] + [devices[i]];
        var address := lib.parseAddress(devices[i].address);
        if address.Some? {
          addresses := addresses + [address.value];
        }
      }
      assert devices[..|devices|] == devices;
    }

    /** One result of a scan, after the drainer took what it liked. */
    method HandleResult(result: Discovered, take: nat, now: int) returns (id: set<string>)
      requires QueueSound() && ReadingsCounted()
      modifies this`readings, this`accepted, this`metrics, this`seenCalls, this`handed, this`refused
      ensures QueueSound() && ReadingsCounted()
      ensures Counted(old(Books()), Books(), CallsIn(lib, byAddress, [result], now))
      ensures id == SeenIn(lib, byAddress, [result])
      ensures var k := if take < |old(readings)| then take else |old(readings)|;
              handed == old(handed) + old(readings)[..k] && old(readings)[k..] <= readings
      ensures take > 0 && capacity > 0 && !closed ==> metrics.dropped == old(metrics.dropped)
      ensures metrics.missed == old(metrics.missed) && metrics.scanFailures == old(metrics.scanFailures)
      ensures old(accepted) <= accepted && (!closed ==> refused == old(refused))
    {
      Drain(take);
      OneResult(lib, byAddress, result, now);
      var address := ToUpper(result.address.text);
      if address !in byAddress {
        NothingCounted(Books());
        return {};
      }
      var device := byAddress[address];
      ghost var call, before := Call(device.id, Classify(lib, device, result, now)), Books();
      ghost var fits := !closed && |readings| < capacity;
      CallCountsReading(before, accepted, call, fits);
      var ok := Handle(device, result, now);
      OneCall(before, call, fits);
      return if ok then {device.id} else {};
    }

    /** The first loop of a scan: every result of a configured device is handled,
        while the drainer takes what it likes. If it takes something before each of
        them nothing is dropped. */
    method HandleAll(results: seq<Discovered>, takes: seq<nat>, now: int) returns (seen: set<string>)
      requires QueueSound() && ReadingsCounted()
      modifies this`readings, this`accepted, this`metrics, this`seenCalls, this`handed, this`refused
      ensures QueueSound() && ReadingsCounted()
      ensures Counted(old(Books()), Books(), CallsIn(lib, byAddress, results, now))
      ensures seen == SeenIn(lib, byAddress, results)
      ensures capacity > 0 && !closed && |takes| >= |results| && (forall i | 0 <= i < |results| :: takes[i] > 0) ==>
                metrics.dropped == old(metrics.dropped)
      ensures metrics.missed == old(metrics.missed) && metrics.scanFailures == old(metrics.scanFailures)
      ensures old(accepted) <= accepted && (!closed ==> refused == old(refused))
    {
      seen := {};
      NothingCounted(Books());
      for i := 0 to |results|
        invariant QueueSound() && ReadingsCounted()
        invariant Counted(old(Books()), Books(), CallsIn(lib, byAddress, results[..i], now))
        invariant seen == SeenIn(lib, byAddress, results[..i])
        invariant capacity > 0 && !closed && |takes| >= |results| && (forall j | 0 <= j < i :: takes[j] > 0) ==>
                    metrics.dropped == old(metrics.dropped)
        invariant metrics.missed == old(metrics.missed) && metrics.scanFailures == old(metrics.scanFailures)
        invariant old(accepted) <= accepted && (!closed ==> refused == old(refused))
      {
        ghost var before := Books();
        var id := HandleResult(results[i], if i < |takes| then takes[i] else 0, now);
        OneMoreResult(lib, byAddress, results, i, now);
        CountedOn(old(Books()), before, Books(), CallsIn(lib, byAddress, results[..i], now),
                  CallsIn(lib, byAddress, [results[i]], now));
        seen := seen + id;
      }
      assert results[..|results|] == results;
    }

    /** The second loop of a scan: a device not seen is counted missed. */
    method CountMissed(seen: set<string>)
      modifies this`metrics
      ensures forall id :: Count(metrics.missed, id) ==
                           Count(old(metrics.missed), id) + if id in seen then 0 else Multiplicity(devices, id)
      ensures metrics == old(metrics).(missed := metrics.missed)
    {
      for i := 0 to |devices|
        invariant forall id :: Count(metrics.missed, id) ==
                               Count(old(metrics.missed), id) + if id in seen then 0 else Multiplicity(devices[..i], id)
        invariant metrics == old(metrics).(missed := metrics.missed)
      {
        assert devices[..i + 1][..i] == devices[..i];
        if devices[i].id !in seen {
          metrics := metrics.(missed := Bump(metrics.missed, devices[i].id));
        }
      }
      assert devices[..|devices|] == devices;
    }

    /** One scan. It is completed, and then accounted for, unless there is nothing
        to scan for or the scan fails; a failure is counted unless it came with the
        end of the run. */
    method ScanOnce(scan: Scan)
      requires Valid()
      modifies this
      ensures Valid() && closed == old(closed)
      ensures Scanned(lib, byAddress, old(Sums()), Sums(), if Scannable() then [scan] else [])
      ensures metrics.scanFailures == old(metrics.scanFailures) +
                One(scan.result.Err? && !scan.cancelled && Scannable())
      ensures old(accepted) <= accepted && (!closed ==> refused == old(refused))
    {
      ghost var sums := Sums();
      NothingCounted(Books());
      var addresses := ScanAddresses();
      if addresses == [] {
        return;
      }
      if scan.result.Err? {
        FailedScan(devices, lib, byAddress, sums, metrics, scan);
        if scan.cancelled {
          return;
        }
        metrics := metrics.(scanFailures := metrics.scanFailures + 1);
        FailedScan(devices, lib, byAddress, sums, metrics, scan);
        assert Sums() == sums.(books := sums.books.(metrics := metrics));
        return;
      }
      var seen := HandleAll(scan.result.value, scan.takes, scan.now);
      ghost var handled := Books();
      CountMissed(seen);
      CompletedScan(devices, lib, byAddress, sums, handled, metrics, scan, seen);
      seenScans := Add(seenScans, seen);
      completed := completed + 1;
      assert Sums() == Totals(handled.(metrics := metrics), Add(sums.seenScans, seen), sums.completed + 1);
    }

    method CloseReadings()
      requires Valid()
      modifies this`closed
      ensures Valid() && closed
    {
      closed := true;
    }

    /** The scans made when there is anything to scan for. */
    ghost function Made(first: Scan, ticks: seq<Option<Scan>>): seq<Scan> {
      if Scannable() then ScansMade(first, ticks) else []
    }

    /** Scans, the first at once and one for every tick that is chosen, until the
        context is chosen instead (None); only then is the queue closed. Whatever
        the ticks, no reading is ever offered to a closed queue, so a dropped one
        always met a full queue. */
    method Run(first: Scan, ticks: seq<Option<Scan>>) returns (finished: bool)
      requires Valid() && !closed
      modifies this
      ensures Valid() && closed == finished
      ensures finished <==> None in ticks
      ensures refused == old(refused)
      ensures old(accepted) <= accepted
      ensures Scanned(lib, byAddress, old(Sums()), Sums(), Made(first, ticks))
    {
      ScanOnce(first);
      assert ticks[..0] == [];
      for i := 0 to |ticks|
        invariant Valid() && !closed && refused == old(refused) && old(accepted) <= accepted
        invariant None !in ticks[..i]
        invariant Scanned(lib, byAddress, old(Sums()), Sums(), Made(first, ticks[..i]))
      {
        assert ticks[..i + 1] == ticks[..i] + [ticks[i]];
        assert ticks[..i + 1][..i] == ticks[..i];
        match ticks[i] {
          case None =>
            CloseReadings();
            NoScanAfterEnd(first, ticks, i);
            return true;
          case Some(scan) =>
            ghost var before := Sums();
            ScanOnce(scan);
            if Scannable() {
              ScannedOn(lib, byAddress, old(Sums()), before, Sums(), Made(first, ticks[..i]), scan);
            } else {
              NothingScanned(lib, byAddress, old(Sums()), before, Sums());
            }
        }
      }
      assert ticks[..|ticks|] == ticks;
      return false;
    }

    /** The drainer once the queue is closed: everything still queued is written,
        in order, each to the table of its record type. */
    method DrainToEnd() returns (tables: seq<Table>)
      requires Valid() && closed
      modifies this`readings, this`handed
      ensures Valid() && readings == [] && handed == accepted
      ensures |tables| == |old(readings)|
      ensures forall i | 0 <= i < |tables| :: tables[i] == TableOf(old(readings)[i].recordType) && tables[i] != NoTable
    {
      tables := [];
      while readings != []
        invariant Valid() && |tables| + |readings| == |old(readings)|
        invariant readings == old(readings)[|tables|..]
        invariant forall i | 0 <= i < |tables| ::
                    tables[i] == TableOf(old(readings)[i].recordType) && tables[i] != NoTable
        decreases |readings|
      {
        var reading := readings[0];
        assert reading in accepted && reading == old(readings)[|tables|];
        Drain(1);
        var table := InsertVictron(reading);
        tables := tables + [table];
      }
    }
  }

  lemma AnotherScan(lib: Library, byAddress: map<string, Device>, before: Tally, scans: seq<Scan>, scan: Scan)
    ensures CompletedIn(scans + [scan]) == CompletedIn(scans) + One(scan.result.Ok?)
    ensures CallsOver(lib, byAddress, scans + [scan]) ==
            CallsOver(lib, byAddress, scans) + CallsOf(lib, byAddress, scan)
    ensures SeenOver(lib, byAddress, before, scans + [scan]) ==
            SeenAfter(lib, byAddress, SeenOver(lib, byAddress, before, scans), scan)
  {
    assert (scans + [scan])[..|scans|] == scans;
  }

  lemma OneResult(lib: Library, byAddress: map<string, Device>, result: Discovered, now: int)
    ensures var device := DeviceFor(byAddress, result);
            && CallsIn(lib, byAddress, [result], now) ==
               (if device.Some? then [Call(device.value.id, Classify(lib, device.value, result, now))] else [])
            && SeenIn(lib, byAddress, [result]) ==
               (if device.Some? && RecordOf(lib, result).Some? then {device.value.id} else {})
  {
    assert [result][..0] == [];
  }

  lemma OneMoreResult(lib: Library, byAddress: map<string, Device>, results: seq<Discovered>, i: nat, now: int)
    requires i < |results|
    ensures SeenIn(lib, byAddress, results[..i + 1]) ==
            SeenIn(lib, byAddress, results[..i]) + SeenIn(lib, byAddress, [results[i]])
    ensures CallsIn(lib, byAddress, results[..i + 1], now) ==
            CallsIn(lib, byAddress, results[..i], now) + CallsIn(lib, byAddress, [results[i]], now)
  {
    assert results[..i + 1][..i] == results[..i] && [results[i]][..0] == [];
  }

  lemma {:induction false} NoScanAfterEnd(first: Scan, ticks: seq<Option<Scan>>, i: nat)
    requires i < |ticks| && ticks[i].None?
    ensures ScansMade(first, ticks) == ScansMade(first, ticks[..i])
    decreases |ticks|
  {
    var n := |ticks| - 1;
    if i < n {
      assert ticks[..n][i] == None && ticks[..n][..i] == ticks[..i];
      NoScanAfterEnd(first, ticks[..n], i);
    }
  }

  datatype Table = SolarChargerTable | BatteryMonitorTable | NoTable

  function TableOf(recordType: nat): Table {
    if recordType == RECORD_SOLAR_CHARGER then SolarChargerTable
    else if recordType == RECORD_BATTERY_MONITOR then BatteryMonitorTable
    else NoTable
  }

  /** The writer dispatches on the payload that is set. For a reading the collector
      made that is its record type's table, and there is always one. */
  method InsertVictron(r: VictronReading) returns (table: Table)
    ensures r.solarCharger.Some? ==> table == SolarChargerTable
    ensures r.solarCharger.None? && r.batteryMonitor.Some? ==> table == BatteryMonitorTable
    ensures WellFormed(r) ==> table == TableOf(r.recordType) && table != NoTable
    ensures table == NoTable <==> r.solarCharger.None? && r.batteryMonitor.None?
  {
    if r.solarCharger.Some? {
      return SolarChargerTable;
    }
    if r.batteryMonitor.Some? {
      return BatteryMonitorTable;
    }
    return NoTable;
  }

  /** With one device per ID the two counters share out the completed scans. */
  lemma DistinctIDsShareScans(devices: seq<Device>, missed: Tally, seenScans: Tally, completed: nat, id: string)
    requires ScansBalanced(devices, missed, seenScans, completed)
    requires Multiplicity(devices, id) == 1
    ensures completed == Count(missed, id) + Count(seenScans, id)
  {
  }

  lemma {:induction false} DistinctMeansOnce(devices: seq<Device>, k: nat)
    requires DistinctDeviceIDs(devices) && k < |devices|
    ensures Multiplicity(devices, devices[k].id) == 1
  {
    var n := |devices| - 1;
    if k < n {
      DistinctMeansOnce(devices[..n], k);
    } else {
      NotThereMeansNone(devices[..n], devices[n].id);
    }
  }

  lemma {:induction false} NotThereMeansNone(devices: seq<Device>, id: string)
    requires forall i | 0 <= i < |devices| :: devices[i].id != id
    ensures Multiplicity(devices, id) == 0
  {
    if devices != [] { NotThereMeansNone(devices[..|devices| - 1], id); }
  }

  /** The accounting of one device over a run, in terms of what its scans brought:
      each completed scan saw the device or counted it missed; each call that read
      its state is in exactly one of five counters, three of which follow from the
      advertisements alone; and the readings are those written and those queued. */
  ghost predicate Accounted(lib: Library, byAddress: map<string, Device>, scans: seq<Scan>, m: Metrics,
                            handed: seq<VictronReading>, queued: seq<VictronReading>, id: string)
  {
    var calls := CallsOver(lib, byAddress, scans);
    && CompletedIn(scans) == Count(m.missed, id) + ScansSeeing(lib, byAddress, scans, id)
    && NumberOf(calls, Sighting, id) ==
       Count(m.unsupported, id) + Count(m.decryptFailures, id) + Count(m.decodeFailures, id) +
       Count(m.dropped, id) + Count(m.readings, id)
    && Count(m.unsupported, id) == NumberOf(calls, UnsupportedType, id)
    && Count(m.decryptFailures, id) == NumberOf(calls, Undecryptable, id)
    && Count(m.decodeFailures, id) == NumberOf(calls, Undecodable, id)
    && Count(m.readings, id) == ReadingsOf(handed, id) + ReadingsOf(queued, id)
  }

  lemma RunAccounted(lib: Library, byAddress: map<string, Device>, devices: seq<Device>, scans: seq<Scan>,
                     l: Ledger, handed: seq<VictronReading>, queued: seq<VictronReading>, k: nat)
    requires DistinctDeviceIDs(devices) && k < |devices|
    requires Counted(Ledger(NO_METRICS, map[]), l, CallsOver(lib, byAddress, scans))
    requires ScansBalanced(devices, l.metrics.missed, SeenOver(lib, byAddress, map[], scans), CompletedIn(scans))
    requires CountsReadings(l.metrics.readings, handed + queued)
    ensures Accounted(lib, byAddress, scans, l.metrics, handed, queued, devices[k].id)
  {
    var id := devices[k].id;
    assert CountedFor(Ledger(NO_METRICS, map[]), l, CallsOver(lib, byAddress, scans), id);
    SightingsSplit(CallsOver(lib, byAddress, scans), id);
    SeenOverCounts(lib, byAddress, map[], scans, id);
    DistinctMeansOnce(devices, k);
    DistinctIDsShareScans(devices, l.metrics.missed, SeenOver(lib, byAddress, map[], scans), CompletedIn(scans), id);
    ReadingsOfConcat(handed, queued, id);
  }

  /** A new collector, run. With distinct IDs every device is fully accounted for. */
  method Collect(devices: seq<Device>, bufferSize: int, lib: Library, first: Scan, ticks: seq<Option<Scan>>)
    returns (c: Collector, finished: bool)
    ensures fresh(c) && c.Valid() && c.closed == finished && c.refused == 0
    ensures forall a :: Lookup(c.byAddress, a) == LastMatch(devices, a)
    ensures c.devices == devices && c.lib == lib
    ensures DistinctDeviceIDs(devices) ==>
              forall k | 0 <= k < |devices| ::
                Accounted(lib, c.byAddress, c.Made(first, ticks), c.metrics, c.handed, c.readings, devices[k].id)
  {
    c := new Collector(devices, bufferSize, lib);
    finished := c.Run(first, ticks);
    if DistinctDeviceIDs(devices) {
      forall k | 0 <= k < |devices|
        ensures Accounted(lib, c.byAddress, c.Made(first, ticks), c.metrics, c.handed, c.readings, devices[k].id)
      {
        RunAccounted(lib, c.byAddress, devices, c.Made(first, ticks), c.Books(), c.handed, c.readings, k);
      }
    }
  }

  /** startVictron: parse the configuration and, if it names devices, collect from
      them. Every device is accounted for when no two IDs trim to the same text. */
  method StartVictron(config: Config, bufferSize: int, lib: Library, first: Scan, ticks: seq<Option<Scan>>)
    returns (r: Result<Option<Collector>, ConfigError>)
    ensures r.Err? ==> config.addresses != map[] && config.Parsed(Err(r.error))
    ensures r == Ok(None) <==> config.addresses == map[]
    ensures r.Ok? && r.value.Some? ==>
              var c := r.value.value;
              && c.Valid() && c.refused == 0 && config.Parsed(Ok(c.devices))
              && |c.byAddress| == |c.devices| == |config.addresses|
              && (forall a :: Lookup(c.byAddress, a) == LinearSearch(c.devices, a))
              && (config.DistinctTrimmedIDs() ==>
                    forall d | d in c.devices ::
                      Accounted(lib, c.byAddress, c.Made(first, ticks), c.metrics, c.handed, c.readings, d.id))
  {
    var parsed := ParseDevices(config);
    if parsed.Err? {
      return Err(parsed.error);
    }
    var devices := parsed.value;
    if config.addresses != map[] {
      ListedAre(config, devices);
      ParsedIDsDistinctIff(config, devices);
      assert devices != [] by {
        var id :| id in config.addresses;
        assert config.Entry(id) in devices;
      }
    }
    if devices == [] {
      return Ok(None);
    }
    var c, _ := Collect(devices, bufferSize, lib, first, ticks);
    IndexAgreesWithList(config, devices, c.byAddress);
    return Ok(Some(c));
  }
}

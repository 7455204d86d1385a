# A verified model of litime-timescaledb-inserter

The service keeps a Bluetooth connection to every configured battery, listens for
Victron advertisements on the same radio, and writes what it receives to a
database. This project models its concurrent core and its configuration code in
Dafny and proves what they promise. `dafny verify dfyconfig.toml` checks all of it.

Library calls (Bluetooth, parsers, decryption, the database) are not modelled:
their results are function parameters or arbitrary inputs, so every statement
holds for any behaviour of theirs. Times are integers of nanoseconds on one clock
that never runs backwards. A map iteration takes the remaining keys in an
arbitrary order. Counters appear as maps from identifiers to numbers.

## Modules

- `PublishProtocol`: handleNotification, publish, closeReadings and the consumer
  loop as one step relation. Any number of callbacks may be in flight; taking the
  read lock, the closed check, the send, giving the lock back and every counter
  update are steps of their own, and so are the closer's four. A waiting writer
  holds back new readers, as in Go. `PublishSafety`, `PublishProgress` and
  `PublishRefinement` hold the invariants, the waiting bounds and the proof that
  every interleaving acts on the queue as a sequence of whole operations.
- `ReadingQueue`: those whole operations, and the `Manager` class whose methods
  perform them.
- `Shutdown`: main, the manager, the Victron collector and its drainer with their
  queues and one-slot channels, from start to "shutdown complete".
- `Supervisor`, `SupervisorRuns`, `Backoff`: one battery's supervisor as a loop over
  turns, the law its trace obeys, what every run does, and the capped exponential
  wait. `Fleet`: all supervisors interleaved, with the rescans they share.
- `Staleness`: the poll loop, the per-connection counter and NewManager's check.
- `Collector`: the Victron collector class, its accounting and the writer's dispatch.
- `Resolution`: name and address resolution with one scan.
- `Ownership`: when two configured batteries can turn out to be one.
- `Batteries`, `Devices`: the two configuration parsers and the address index, over
  `Text` (trimming, order) and `Sorting` (what a sort promises).
- `CellVoltages`: the numbered map of cell voltages. `Tallies`, `Bluetooth`,
  `Prelude`: shared types.

## Where the code and its documentation differ

The model follows the code.

- The reconnect counter is described as connections re-established
  (internal/litime/metrics.go:49-50, README.md:193) and is moved when a connection
  is lost, before any retry (internal/litime/manager.go:307-308).
  `LossCountedAsReconnect` is a run in which it is wrong; `ReconnectsAccurateIff` and
  `AccurateBetweenTurnsIff` say exactly when it is right.
- NewManager requires the stale timeout to exceed the scrape interval so that no
  battery is declared dead before it had a chance to answer
  (internal/litime/manager_test.go:28-31). The counter is started before the
  connection is made (internal/litime/manager.go:322-323), so this is not enough:
  `AcceptedConfigCanDrop` drops a healthy battery under every accepted
  configuration, and `NoFalseAlarmIff` gives the exact condition.
- Readings still queued for Victron are meant to be written before the end is
  reported (cmd/litime-timescaledb-inserter/victron.go:70-71). When the manager
  fails, main exits without waiting for that
  (cmd/litime-timescaledb-inserter/main.go:168-171):
  `ManagerFailureAbandonsReadings`, and `VictronDrainedIff` for the exact condition.
- The stale timeout is to be kept above the scrape interval so that a single missed
  reply does not force a reconnect (README.md:173-175). `NoFalseAlarmIff` says by how
  much for any number of missed replies; NewManager's own check allows for none.
- Two IDs for one battery are meant to be rejected, because every measurement would be
  doubled (internal/litime/battery.go:75-76). What is compared is the text of the
  targets, so one battery passes under two spellings of its address, and under its
  address and its name (`DuplicatesAccepted`). `DuplicatesPreventedIff` says exactly
  for which accepted configurations no two supervisors ever drive one battery.
- Neither parser looks for two IDs that trim to the same text: `DoublesAreAccepted` in
  both. `ResultUniqueIff`, `ParsedBatteries`, `ParsedIDsDistinctIff` and
  `PaddedIDsNeedADouble` say what follows.

## Model

| member | source | states |
|---|---|---|
| PublishSafety.NoSendAfterClose | internal/litime/manager.go:374-397 | in every reachable state of every interleaving: no send on a closed channel, at most one close, the queue within its bound, and a publisher that found the queue open still finds it open when it gives the lock back |
| PublishSafety.Conservation | internal/litime/manager.go:347-388 | per battery, in every reachable state: callbacks, notifications and accepted readings each split without remainder into their outcomes and what is in flight, being written or queued |
| PublishSafety.CountersTell | internal/litime/manager.go:347-370 | in every run each of the eight counters of each battery is the number of times its own thing was done, told from the actions, the callbacks, the queue and what the consumer is writing: inserts those that succeeded, insert errors those that failed, and so on |
| PublishSafety.DeliveredInOrder | cmd/litime-timescaledb-inserter/main.go:161-166 | the readings handed to insert are always a prefix of the accepted ones, and all of them once the loop has ended |
| PublishSafety.ClosedForGood | internal/litime/manager.go:378-380 | after the close nothing is accepted any more, whatever late callbacks do |
| PublishSafety.StepKeeps | internal/litime/manager.go:374-397 | every step of every participant keeps mutual exclusion, order and all balances |
| PublishSafety.RunKeeps | internal/litime/manager.go:374-397 | so does every finite run |
| PublishSafety.HolderIsReader | internal/litime/manager.go:375-376 | a publisher between RLock and RUnlock is one of the readers the lock counts |
| PublishSafety.AdvanceNeverPanics | internal/litime/manager.go:382-384 | a publisher's send never meets a closed channel |
| PublishProgress.CallbackStepsBounded | internal/litime/manager.go:347-388 | in every run a callback takes no more steps of its own than it had left, seven in all, whatever happens around it |
| PublishProgress.CallbackCanFinish | internal/litime/manager.go:342-388 | from every sound state a callback under way reaches its end by its own steps and, while a close is at work, those the close needs, at most seven and three per publisher inside and five: never a step of the consumer, of the database or of an unrelated callback |
| PublishProgress.LateCallback | internal/litime/manager.go:66-72 | a callback can come at any time, also after the close, and reach its end; once the queue is closed it changes nothing there |
| PublishProgress.ConsumerDrains | cmd/litime-timescaledb-inserter/main.go:161-166 | once the channel is closed the consumer's loop ends by its own steps, whether inserts succeed or not, having been handed everything accepted |
| PublishProgress.CloseNeverStuck | internal/litime/manager.go:390-397 | while closeReadings is under way, it or a publisher inside the lock can take a step |
| PublishProgress.StepTowardsClose | internal/litime/manager.go:390-397 | such a step shortens what remains of the close, and no other step lengthens it |
| PublishProgress.CloseCompletes | internal/litime/manager.go:390-397 | in every run the close is done after at most three steps per publisher inside and four of its own, however many publishers arrive and even if the consumer never moves |
| PublishProgress.RemainingBound | internal/litime/manager.go:390-397 | the measure is bounded by the publishers inside the lock |
| PublishRefinement.Linearisable | internal/litime/manager.go:374-397 | every interleaving leaves the channel, the accepted and the handed-out readings as some sequence of uninterrupted operations would |
| PublishRefinement.ResultsRefine | internal/litime/manager.go:374-388 | the result a publisher decides on, and returns, is the one the atomic offer gives at that moment |
| PublishRefinement.StepRefines | internal/litime/manager.go:374-397 | each step is its atomic operation or changes nothing of the queue |
| ReadingQueue.Conserves | internal/litime/manager.go:382-388 | over any history of operations, what was handed out followed by what is queued is what was there followed by what was accepted |
| ReadingQueue.Manager.constructor | internal/litime/manager.go:89-91 | a non-positive buffer size means 256, so the queue always has room for a reading |
| ReadingQueue.Manager.HandleNotification | internal/litime/manager.go:347-370 | a notification that does not parse moves only the parse failure counter; any other stores its own connection's time, is counted, offered once, and counted dropped exactly when the open queue was full |
| Shutdown.CompleteMeansDrained | cmd/litime-timescaledb-inserter/main.go:164-178 | reaching "shutdown complete" means both queues are closed and empty, every accepted reading was handed to its writer and the manager ended without an error |
| Shutdown.CompleteIff | cmd/litime-timescaledb-inserter/main.go:168-178 | a started process that has ended says "shutdown complete" exactly if the first resolution did not fail, and exits with the manager's error exactly if it did |
| Shutdown.AllReturnFirst | internal/litime/manager.go:160-168 | before the queue is closed one supervisor has returned for every battery, or the resolution failed and none was started |
| Shutdown.CompleteOnlyCancelled | cmd/litime-timescaledb-inserter/main.go:41-43 | with batteries configured, "shutdown complete" is never reached without the cancellation |
| Shutdown.ProducersNeverWait | internal/litime/manager.go:140-168 | after the cancellation the manager has a step until it has stopped, and the collector too, whatever is queued and whoever is slow |
| Shutdown.AcceptedUntilClose | internal/litime/manager.go:66-72 | readings are accepted until the close while there is room, late ones of supervisors that have returned included |
| Shutdown.NeverDeadlocked | cmd/litime-timescaledb-inserter/main.go:134-178 | after cancellation some step is possible in every reachable state until main ends |
| Shutdown.StepUsesUp | cmd/litime-timescaledb-inserter/main.go:134-178 | every internal step uses up a control step or takes one queued reading; nothing from outside adds control steps, and only a publish adds a reading |
| Shutdown.EveryRunIsPaidFor | cmd/litime-timescaledb-inserter/main.go:134-178 | in every run from every sound state the internal steps are at most the work there was, plus one for each reading published meanwhile, minus the work left |
| Shutdown.CanEndByItself | cmd/litime-timescaledb-inserter/main.go:164-178 | from every sound state after the cancellation there is a run of internal steps only, no longer than the work left, in which main ends, and with "shutdown complete" exactly if the manager has not failed and main has not exited |
| Shutdown.EndsByItself | cmd/litime-timescaledb-inserter/main.go:164-178 | once both queues are closed no run at all is longer than the work left |
| Shutdown.ControlBounded | internal/litime/manager.go:140-168 | however many readings arrive, a run has only so many control steps |
| Shutdown.ControlFromStart | internal/litime/manager.go:140-168 | from the very beginning sixteen, and one for every battery |
| Shutdown.OneSendEach | cmd/litime-timescaledb-inserter/victron.go:64-77 | each one-slot channel gets at most one send, never to a full slot; in a complete shutdown the manager's and the drainer's got exactly one, and the collector's too if there is a collector |
| Shutdown.VictronDrainedIff | cmd/litime-timescaledb-inserter/main.go:168-176 | all Victron readings are sure to be handed to the writer by the end of a started process exactly if the manager did not fail or no Victron device is configured |
| Shutdown.ManagerFailureAbandonsReadings | cmd/litime-timescaledb-inserter/main.go:168-171 | a run in which the manager fails and a queued Victron reading is never written |
| Shutdown.StepKeepsLitime | internal/litime/manager.go:140-168 | every step keeps what ties the manager, its queue, its done channel and main together |
| Shutdown.StepKeepsCollector | cmd/litime-timescaledb-inserter/victron.go:64-77 | every step keeps what ties the collector, its queue and the drainer together |
| Shutdown.StepKeepsDone | cmd/litime-timescaledb-inserter/victron.go:26-37 | every step keeps the state of the channel main waits on for Victron, configured or not |
| Supervisor.SuperviseBattery | internal/litime/manager.go:254-315 | the loop does exactly the turns it is given, in order, until it returns |
| Supervisor.SupervisorLawful | internal/litime/manager.go:254-315 | every run obeys the law of traces; at rest or returned, nothing is connected and the gauge is zero |
| Supervisor.TurnTells | internal/litime/manager.go:258-314 | a turn connects, counts a loss, adopts an address, waits and returns exactly when what happened to it says so |
| Supervisor.TurnTakesTime | internal/litime/manager.go:425-435 | the wait of a turn begins when its other work is done and lasts its time and the lateness of waking, or until it is cut short |
| SupervisorRuns.EveryConnectionPolled | internal/litime/manager.go:278-301 | in every run each connection is followed at once by its gauge raised, the polling, the disconnection and its gauge lowered; each failed attempt by its gauge lowered |
| SupervisorRuns.OnlyConnectionsPolled | internal/litime/manager.go:293-301 | and nothing of this happens outside the course of a connection |
| SupervisorRuns.EveryFailureWaits | internal/litime/manager.go:269-312 | a loss is counted right after its connection unless the run ends there; every name not found, failed attempt or loss is followed by one wait before anything else |
| SupervisorRuns.ConnectsPaired | internal/litime/manager.go:278-301 | in every run, from one connection attempt to any later one, or to the end, there are as many disconnections as connections |
| SupervisorRuns.CountsOnEveryPrefix | internal/litime/manager.go:293-308 | at every point of every run: connections are disconnections plus the one that is open, and reconnects plus the one not yet counted as lost |
| SupervisorRuns.ReconnectsAccurateIff | internal/litime/metrics.go:49-50 | at every point the reconnect counter is the number of connections re-established exactly before the first connection and while the last is not counted as lost |
| SupervisorRuns.AccurateBetweenTurnsIff | internal/litime/manager.go:303-308 | between turns it is accurate exactly if nothing was connected yet or the last connection ended with the context cancelled |
| SupervisorRuns.LossCountedAsReconnect | internal/litime/manager.go:307-308 | one connection, lost, gives one reconnect and no connection re-established |
| SupervisorRuns.GaugeAccurateIff | internal/litime/manager.go:293-301 | at every point of every run the gauge tells whether a connection is open except right after a connection or disconnection, before its update; at the end it is zero and nothing is open |
| SupervisorRuns.AddressFixed | internal/litime/manager.go:259-278 | in every run all attempts are at one address, the one the supervisor was started with or its rescan found, and once it is known there is no rescan |
| SupervisorRuns.WaitsFollowClosedForm | internal/litime/manager.go:256-313 | in every run the k-th wait since the start or the last connection is min(5 s * 2^k, 300 s), rescans included |
| SupervisorRuns.StreakTakesTime | internal/litime/manager.go:425-444 | in every run, n waits without a connection have taken at least 5(2^n - 1) s for n up to six and 315 + 300(n - 6) s from there, counted from the start of the first |
| SupervisorRuns.FewTriesInStreak | internal/litime/manager.go:256-313 | in every run, a streak without a connection that has lasted a time, counted from its first wait, holds at most one failure more than the waits that fit in that time |
| SupervisorRuns.ReturnsIffCancelled | internal/litime/manager.go:258-312 | a supervisor has returned exactly if some turn, its last, heard of the cancellation in one of the answers that turn asks for |
| Fleet.RunsAsIfAlone | internal/litime/manager.go:148-166 | with distinct IDs, in any interleaving of all supervisors over any scans, each is exactly where a manager of its battery alone would have brought it with the same scans, save that a scan with an ambiguous configured name counts as a failed one |
| Fleet.OwnScans | internal/litime/manager.go:220-238 | without an ambiguous name they are the same scans |
| Fleet.TriedWhereLocated | internal/litime/manager.go:259-278 | in any interleaving a supervisor only tries the address at which its own battery was located by the first scan or by one of its own rescans, and never rescans if the first located it |
| Fleet.RescanFinds | internal/litime/manager.go:259-267 | a rescan finds the battery exactly where the one entry of its name is, and nothing when it fails or a configured name is ambiguous |
| Fleet.AnyTurnIsPossible | internal/litime/manager.go:160-163 | any supervisor may take any turn next, over any scan; only what its rescan finds is not free |
| Fleet.OwnRun | internal/litime/manager.go:160-163 | in any interleaving a supervisor has taken exactly its own turns |
| Backoff.NextIsCapped | internal/litime/manager.go:437-444 | doubling under the cap is the closed form from any point on |
| Backoff.CapReached | internal/litime/manager.go:16-19 | the cap is reached at the seventh wait and not before |
| Backoff.WaitSumClosedForm | internal/litime/manager.go:437-444 | n waits add up to 5(2^n - 1) s up to six, and 315 + 300(n - 6) s from there |
| Backoff.WaitsThatFit | internal/litime/manager.go:437-444 | exactly how many waits fit in a given time |
| Staleness.PollUntilStale | internal/litime/manager.go:401-422 | the loop returns at the first wake that is a cancellation, a failed query or a silence longer than the timeout, for exactly that reason, and polls on through all others |
| Staleness.NoFalseAlarmIff | internal/litime/manager.go:319-340 | a battery that misses at most m replies in a row is never reported silent if and only if connection time, m + 1 intervals and serving lag together stay within the stale timeout |
| Staleness.AcceptedConfigCanDrop | internal/litime/manager.go:98-100 | under every accepted configuration a healthy battery is dropped at its first tick exactly when connecting takes longer than the difference of the two settings |
| Staleness.SilenceDetected | internal/litime/manager.go:414-419 | when readings stop, the loop returns within one gap of the last reading plus the stale timeout, or of its own beginning |
| Staleness.DetectedInTime | internal/litime/manager.go:414-419 | the same for any loaded times bounded by the last reading |
| Staleness.TrackConnections | internal/litime/manager.go:319-355 | with one allocated counter for each connection attempt, each holds its own connection's latest store, whatever callbacks of other connections store meanwhile |
| Staleness.LatestStoreIsValue | internal/litime/manager.go:355 | for stores in time order that is the value the false-alarm result speaks of |
| Staleness.SilenceDetectedAmongOthers | internal/litime/manager.go:319-419 | over any history of connections and stores: when a connection's own readings stop, its loop returns within the bound, and the silence it reports is measured from its own latest store at the time of loading |
| Staleness.LatestIs | internal/litime/manager.go:355 | the counter's value at a time is the latest store not after it |
| Staleness.NewManager | internal/litime/manager.go:82-117 | a configuration is accepted exactly when there is a battery, the adapter resolves and the effective stale timeout exceeds the effective interval; the settings in force are those given, or the defaults for those not positive |
| Resolution.ResolveAddresses | internal/litime/manager.go:176-241 | for every scan result and map order: the ambiguity error exactly when the scan succeeds, every address parses and two entries carry one configured name, with their addresses; the other errors exactly when an address does not parse or a scan that is needed fails; the names asked for are the configured ones, once each, and without names there is no scan |
| Resolution.ResolvedExactly | internal/litime/manager.go:220-238 | with distinct IDs a battery is resolved if and only if it can be located, and to that address |
| Resolution.ResolvedMeans | internal/litime/manager.go:176-241 | with distinct IDs: an address resolves to what it parses to; a name to the address of the one entry that carries it, and not at all if there is no such entry |
| Resolution.MatchesAre | internal/litime/manager.go:215-218 | the matches of a name are the addresses of all entries that carry it and of no other, each once, in scan order |
| Resolution.LearnsOwnPlace | internal/litime/manager.go:220-238 | without an ambiguous name a rescan tells a battery where it is in that scan, and nothing else |
| Resolution.RescanIsolation | internal/litime/manager.go:259-267 | without an ambiguous name, what a rescan tells a battery depends on its own name's matches alone, whoever else is configured, present or absent |
| Resolution.LearnsAsIfAlone | internal/litime/manager.go:220-238 | a battery among others learns what it would alone, where a scan with an ambiguous name counts as failed |
| Resolution.GroupByName | internal/litime/manager.go:179-196 | parsed addresses are entered, names grouped once each with their IDs in order |
| Resolution.GroupFound | internal/litime/manager.go:215-218 | the scan's addresses grouped by name, in scan order |
| Resolution.MatchNames | internal/litime/manager.go:220-240 | the third loop fails exactly on an ambiguous name and otherwise resolves everything there is to resolve |
| Resolution.AssignAll | internal/litime/manager.go:235-237 | the only match goes to every ID of its name and to no other |
| Batteries.ParseBatteries | internal/litime/battery.go:47-89 | for every iteration order: accepted if and only if no trimmed ID or target is empty and trimmed targets are distinct; the result lists the trimmed entries once each in ID order; an error names a real fault |
| Batteries.ResultUniqueIff | internal/litime/battery.go:85-88 | the result is the same for all orders exactly when trimmed IDs are distinct |
| Batteries.OneBatteryPerEntry | internal/litime/battery.go:56-83 | there is one battery for every entry |
| Text.TrimKeepsCore | internal/litime/battery.go:60-61 | trimming removes white space from both ends and nothing else |
| Text.LatinSpaces | internal/litime/battery.go:60-61 | the white space that is trimmed, within Latin-1 |
| Text.BeforeIsLexicographic | internal/litime/battery.go:85-86 | the order of IDs is the lexicographic order of code points |
| Text.ToUpperFoldsCase | internal/victron/device.go:70-76 | upper case forgets the case of letters and nothing else |
| Ownership.DuplicatesPreventedIff | internal/litime/battery.go:75-80 | for every accepted configuration: in no run, whatever the interleaving and the scans, do two supervisors know one address, exactly if trimmed IDs are distinct and the targets are all addresses no two of which parse alike, or all names (a single one, unless every device is taken to keep its name) |
| Ownership.NeverSharedIff | internal/litime/manager.go:148-238 | the same of any list of batteries with distinct targets |
| Ownership.SeparateStayApart | internal/litime/manager.go:259-278 | under that condition two supervisors never know one address, at any point of any run |
| Ownership.DuplicatesAccepted | internal/litime/battery.go:75-80 | one battery by its address and by its name, and one by two spellings of its address, are accepted and supervised twice in some run |
| Ownership.CanonicalAddressesSuffice | internal/litime/battery.go:75-80 | an accepted configuration with distinct trimmed IDs whose targets are all addresses written as they print never has two supervisors at one address |
| Ownership.ParsedBatteries | internal/litime/battery.go:56-88 | parsed batteries have distinct IDs exactly if the trimmed IDs are distinct; their targets always are, and every address among them parses |
| Ownership.ConfiguredAsIfAlone | internal/litime/manager.go:148-166 | for every accepted configuration with distinct trimmed IDs each battery is supervised as if configured alone |
| Batteries.DoublesAreAccepted | internal/litime/battery.go:56-80 | two IDs that trim to the same text are accepted, and two batteries then carry one ID |
| Devices.ParseDevices | internal/victron/device.go:34-92 | for every pair of iteration orders: the exact acceptance condition, the sorted listing of the normalised entries, and errors that name a real fault |
| Devices.AcceptableIff | internal/victron/device.go:42-86 | accepted are exactly the configurations whose entries all have an ID, an address and a key that parse, whose addresses differ in more than case, and whose keys all have a device |
| Devices.FaultIs | internal/victron/device.go:43-68 | an entry is rejected with an error exactly when that is what is wrong with it, the checks coming in their order |
| Devices.EntryListed | internal/victron/device.go:76 | every entry is in the list, with its trimmed ID, its address in upper case and the key of that ID |
| Devices.ListedDescribes | internal/victron/device.go:76 | and nothing else is |
| Devices.FindOrphan | internal/victron/device.go:79-86 | a key without a device is found if and only if there is one |
| Devices.AcceptedIDsAgree | internal/victron/device.go:60-86 | acceptance forces the trimmed IDs of both maps to be the same set |
| Devices.PaddedIDsNeedADouble | internal/victron/device.go:42-86 | an accepted padded ID stands beside its trimmed double, so with distinct trimmed IDs every padded one is rejected |
| Devices.DoublesAreAccepted | internal/victron/device.go:42-76 | such a pair is accepted, and two devices then carry one ID |
| Devices.ResultUniqueIff | internal/victron/device.go:88-91 | the result is the same for all orders exactly when trimmed IDs are distinct |
| Devices.ParsedIDsDistinctIff | internal/victron/device.go:42-76 | parsed devices have distinct IDs exactly if the trimmed IDs of the configuration are distinct |
| Devices.OneDevicePerEntry | internal/victron/device.go:39-77 | there is one device for every entry |
| Devices.ParsedAddressesDistinct | internal/victron/device.go:70-76 | no two parsed devices share an address |
| Devices.IndexByAddress | internal/victron/collector.go:100-103 | the index finds the last device with an address |
| Devices.IndexAgreesWithList | internal/victron/collector.go:179-184 | the index built from a list the parser returned has one entry for every configured device, and finds what a linear search of the list finds, misses included |
| Collector.Collector.Handle | internal/victron/collector.go:215-306 | from the library's answers: exactly which counter moves, by one, for this device alone; and the reading that is queued, when the queue is open and has room |
| Collector.Collector.Publish | internal/victron/collector.go:309-323 | a reading is accepted exactly when the queue is open and has room |
| Collector.Collector.ScanOnce | internal/victron/collector.go:144-200 | a scan is completed, failed or neither exactly when the code says so; the counters move by exactly what its advertisements are, and the accounting of all devices is kept |
| Collector.Collector.HandleAll | internal/victron/collector.go:179-189 | the IDs seen are those with readable state in the scan, and for every device the sightings and each outcome counter grow by the number of its advertisements of that kind, while the drainer takes what it likes; nothing is dropped if it takes something each time |
| Collector.Collector.CountMissed | internal/victron/collector.go:194-199 | every device not seen is counted missed once, and no other |
| Collector.Collector.Run | internal/victron/collector.go:124-142 | one scan at once and one per chosen tick until the end is chosen, all counters moved by exactly what those scans brought; the queue is closed only at the end, and no reading is ever offered to a closed queue |
| Collector.Collector.DrainToEnd | cmd/litime-timescaledb-inserter/victron.go:69-77 | after the close everything accepted is written, in order, each reading to its record type's table |
| Collector.InsertVictron | cmd/litime-timescaledb-inserter/victron.go:89-111 | the dispatch on the payload goes to the record type's table for every reading the collector makes; its error branch needs a reading without a payload |
| Collector.Classify | internal/victron/collector.go:215-306 | from the library's answers: which of the outcomes an advertisement has, and that a decoded reading has exactly its record type's payload, model, device and time |
| Collector.CallsAre | internal/victron/collector.go:179-189 | handle is called for every entry of a configured device, in scan order, and for no other |
| Collector.DeviceForIgnoresCase | internal/victron/collector.go:180 | with a parsed list an entry belongs to the one device whose address is the entry's but for the case of letters |
| Collector.SeenMeansSighted | internal/victron/collector.go:185-187 | a scan saw an ID exactly if one of its calls for it counts as a sighting |
| Collector.ScansMadeAre | internal/victron/collector.go:127-141 | the scans of a run are the first, at once, and those of the ticks chosen before the context was, in order |
| Collector.SightingsSplit | internal/victron/collector.go:231-303 | the calls that count as sightings are, per device, the unsupported, undecryptable, undecodable and decoded ones together |
| Collector.OneCall | internal/victron/collector.go:231-303 | what one call moves is exactly what it counts as, for its device alone |
| Collector.OneMoreScan | internal/victron/collector.go:191-199 | each completed scan is shared between the IDs it saw and the devices it counted missed |
| Collector.RunAccounted | internal/victron/collector.go:144-306 | with distinct IDs, over a whole run from zero, for every device: completed scans = missed + scans that saw it; sightings = unsupported + decrypt failures + decode failures + dropped + readings, the first three being what the advertisements make them; and readings = those handed to the writer and those still queued |
| Collector.Collect | cmd/litime-timescaledb-inserter/victron.go:41-67 | a new collector, run over any scans, ends with all its devices accounted for in this way |
| Collector.StartVictron | cmd/litime-timescaledb-inserter/victron.go:20-79 | from the configuration on: rejected for a real fault, nothing without devices, and otherwise an index that agrees with the list and, with distinct trimmed IDs, every device accounted for |
| CellVoltages.MapCellVoltages | internal/timescale/timescale.go:192-198 | the list of cells can be read back from the map |
| CellVoltages.DecimalRoundTrip | internal/timescale/timescale.go:195 | printing a cell number loses nothing |
| CellVoltages.DecimalIsPlain | internal/timescale/timescale.go:195 | it prints digits only, with no zero in front |

## Left out

- The Bluetooth stack, adapter selection, the record and battery parsers, AES and the key parser: their results are arbitrary.
- SQL, insert arguments, pgx and the database: an insert succeeds or fails.
- NewCollector's defaults and checks for scan interval, scan duration and adapter: each is settled by reading one branch.
- Logging, OpenTelemetry, environment parsing, deployment files.
- auxValue, enum names and NULL handling: each is settled by reading one branch.
- Invalid UTF-8 in configuration text: strings are code points, compared in that order. ToUpper maps ASCII letters, all that address text contains.
- 64-bit limits of durations and clocks: times are unbounded integers.
- Staleness.LatestStoreIsValue: a callback reads the clock and stores it in one step; two callbacks of one connection that store out of time order leave an older time in the counter, as TrackConnections has it, and are not part of the detection bounds.
- The order of observation times in the queue: callbacks of an old and a new connection can overlap, so none is claimed.
- A select that picks a tick although the context is cancelled is covered (a further scan, a further wake), but no fairness of select is assumed or proved; progress is stated as bounds on the steps left.
- Supervisor.SuperviseBattery: the loop runs for a finite list of turns, so what is proved is about every finite run; context answers may vary freely from turn to turn, which includes every consistent moment of cancellation.
- Batteries.ParseBatteries: the sort is a function with the contract of sort.Slice, a sorted permutation with no order among equal keys; the in-place exchange of elements is not modelled.
- Devices.ParseDevices: the same holds for its sort.
- Collector.Collector.Run: the drainer runs between the handling of two advertisements, at the pace the input gives, because it can only matter to a publish how much room the queue then has.
- Shutdown.EveryRunIsPaidFor: readings are taken as atomically published; the locking steps are in PublishProtocol.

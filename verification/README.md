# netgraspd: a verified model of its decision logic

netgraspd watches a local network without transmitting, keeps a table of the
devices it sees, writes what changes to a database, and looks for a few kinds of
abuse.  Its decisions are made by state machines that do no I/O.  This project
models those machines in Dafny and proves what they keep over whole runs.

`dafny verify dfyconfig.toml` checks everything.

## How the model is laid out

**The device manager.**  `DeviceTable.dfy` gives the state machine on values: a
`Book` (device table, address index, pending reclassifications, counters), ten
operations on it (`Perform`), and each manager call as a sequence of them
(`Plan`, `Apply`, `Run`).  `DeviceManager.dfy` is the manager itself, a class
whose methods change its fields in place; each method is proved to leave the
table, and hand back the effects, that `Apply` gives, and the class carries the
history it has been through as ghost state.  The results about whole runs are in
`DeviceSessions` (the presence protocol), `Persistence` (the database after any
run, and the persister), `DeviceEvidence` (evidence is written through),
`DeviceNaming` (name stability), `DeviceAttribution` (whose evidence a frame
carries), `DeviceIndex` (who holds an address), `DeviceHistory` (when a device
was last heard, when it leaves, where it is), `DeviceSweeps`, `DeviceWriteback`
and `DeviceUserEdits` (non-interference).

What a call and a run should come to is also told a second time, from the calls
and in definitions apart from those the state machine is made of:
`DeviceEffects` (every session, stay, address and event of a call, with its
contents), `DeviceDecisions` (when a device is renamed and reclassified, and on
what), `DeviceRecency` (which value of a kind is used), `DeviceStates` (online,
idle or offline), `DeviceRecord` (first and last frame, the user's edits),
`PersistedRows` (every table row, read off the effects and flushes) and
`DeviceRows` (the row of a device nothing has been flushed for).

**The security analyzers.**  `Windows` is the bounded map with its eviction,
`SlidingWindows` the two windows, `Gateway` the ranked belief about which device
is the gateway, `Analysis` the shared cooldown.  `ArpScan`, `GratuitousArp`,
`ArpSpoof` and `IpConflict` are classes over bounded maps, each proved against a
log per key and, through it, against a trace specification; for the spoof and
conflict analyzers the log is of the frames themselves, each with the belief it
was read under.  `Chain` runs them.  `GatewayLearning` tells from a trace alone
which address and which hardware address the tracker comes to believe in.
The two window classes stand alone: an analyzer keeps each window by value in
its table, and records on it with the methods the classes are made of.

**The wire.**  `Dns` reads compressed names (section 4.1.4 of RFC 1035) and
messages, `Mdns` turns a message into claims with the addresses the message
proves for them, `MdnsNames` says which names its keys tell apart, `Dedup`
suppresses repeats, `Base64` is the decoder behind SSDP (section 4 of RFC 4648).
`DnsWriter` lays messages out as section 4.1 of RFC 1035 does and reads them
back; `MdnsClaims` states from the records alone what is claimed.

Conventions.  Times and durations are integers in nanoseconds.  Addresses are
numbers.  A confidence is an integer rank, the source's weight in tenths.  The
classifier and the vendor registry are arbitrary functions (`Env`), and so is the
decoding of label bytes to text in `Mdns`, so the results hold for any of them.
Iteration over a hash map visits it in some order that the model takes as given:
`order` in `Sweep` and `TakeDirty`, `victim` where a bounded map evicts.

## Where a property does not hold as one might say it

* A frame recognised as proxy ARP is invisible to the belief and to the scan,
  spoof and conflict analyzers (`Chains.ProxyArpIsInvisible`), but the flood
  analyzer counts a gratuitous one: `Chains.GratuitousProxyIsCounted` is such a
  frame.  Its table changes exactly when the frame is gratuitous and not already
  counted at that very moment (`Chains.FloodsSeeOnlyGratuitous`), and taking out
  every recognised frame that is not gratuitous changes nothing at all
  (`Chains.QuietProxyArpIsInvisible`).
* A scan threshold above 512, a flood threshold above 256, or a window longer
  than the clock library can represent, can never raise an alert:
  `ArpScanning.BeyondCapacityNeverAlerts`, `GratuitousArps.AlertsExactly`, and
  `TooLongNeverAlerts` in both modules.
* Being offline does not mean being on no access point: a controller report may
  place an offline device, as in `DeviceHistory.PlacedWhileOffline`.  It is on one
  exactly when such a report came after it last left
  (`DeviceHistory.OfflineOnAccessPoint`).
* An mDNS name's key does not tell a dot inside a label from one between labels:
  `MdnsNames.DottedHostGetsBoth` is a response whose claim is given another
  host's address.  Two keys are equal exactly when the names are the same once cut
  at every dot (`MdnsNames.KeysAgreeExactly`); where no label holds a dot they are
  equal exactly when the names are the same (`MdnsNames.KeyExactly`), and every
  claim's addresses are its own (`MdnsNames.ClaimAddressesAreItsOwn`).
* The arm of the attribution loop for a claim held by the sender cannot be
  reached: `DeviceAttribution.SenderArmUnreachable`.
* Blank evidence is never stored, and the one blank a device can hold is its
  vendor's name: `DeviceEvidence.StoredEvidenceIsHeld`.  The vendor table in the
  program has no blank entry (src/identity/oui.rs:32-40 skips empty ones), and
  then stored and held evidence are the same: `DeviceEvidence.StoredIsHeld`.

## Model

| member | source | states |
|---|---|---|
| DeviceTable.StateConfig.OfflineFor | src/config.rs:427-435 | the offline timeout is never below the idle timeout, whatever the overrides |
| DeviceTableFacts.OverrideIsLocal | src/config.rs:413-435 | an override settles both timeouts of its own device type, where it gives them, and nobody else's |
| Types.AddressRanges | src/device/mod.rs:1404-1417 | multicast, link-local and group addresses are the ranges the standards give them |
| Identities.ResolveRanked | src/identity/scorer.rs:54-102 | what wins carries exactly its kind's weight, one of eight ranks |
| Identities.ResolveIsHeaviest | src/identity/scorer.rs:54-115 | no usable stored signal outweighs the winner |
| DeviceTableFacts.MergedKeepsEvidence | src/device/mod.rs:389-417 | recording a batch keeps every signal, old and new, exactly once |
| DeviceTableFacts.RunSound | src/device/mod.rs:829-1021 | on every run each entry sits under its own address and holds each signal once |
| DeviceTableFacts.Undisturbed | src/device/mod.rs:829-1173 | an operation leaves every device it is not about as it was, never forgets one, and adds one only by discovery |
| DeviceTableFacts.ThreeParts | src/device/mod.rs:829-1021 | an accepted frame is an arrival, a hearing, and lessons about others, in that order |
| DeviceTableFacts.NobodyIsHeard | src/device/mod.rs:831-838 | a frame from a group address or from no address changes nothing |
| DeviceManager.RecordSignals | src/device/mod.rs:389-417 | the remove-and-insert loop gives the batch's first occurrences followed by the untouched rest |
| DeviceManager.Rescore | src/device/mod.rs:427-460 | the rename decision with its pending rival, in place |
| DeviceManager.Manager.constructor | src/device/mod.rs:565-576 | an empty table with an empty history |
| DeviceManager.Manager.Discover | src/device/mod.rs:1025-1095 | a new entry and its creation, vendor, session and announcement effects, nothing else |
| DeviceManager.Manager.AttributeClaims | src/device/mod.rs:612-660 | the loop computes the attribution of all claims |
| DeviceManager.Manager.UpdateSender | src/device/mod.rs:860-1005 | every stage of updating the sender's entry and its effects, in order |
| DeviceManager.Manager.Fold | src/device/mod.rs:1103-1147 | folding in one signal rescores only when it is new |
| DeviceManager.Manager.Observe | src/device/mod.rs:829-1021 | the whole call: table and effects of one observation, appended to the history |
| DeviceManager.Manager.AddSignal | src/device/mod.rs:1103-1147 | the whole call, including blank values and unknown devices |
| DeviceManager.Manager.SetLocation | src/device/mod.rs:1173-1229 | a new access point is recorded and announced; a known one or an unknown device changes nothing |
| DeviceManager.Manager.Sweep | src/device/mod.rs:1312-1371 | every device is visited once, in some order, each as the timeouts say |
| DeviceManager.Manager.TakeDirty | src/device/mod.rs:1375-1385 | every changed device's snapshot, its flag and counter reset |
| DeviceManager.Manager.ApplyUserSettings | src/device/mod.rs:796-814 | only names and notification flags of known devices change, later rows winning, and every value changed is reported as it was and as it is |
| DeviceSessions.RunKeepsProtocol | src/device/mod.rs:829-1371 | on every run no device's effects break the session protocol, and what they add up to is what the table holds |
| DeviceSessions.UnbrokenStream | src/device/mod.rs:33-99 | what an unbroken stream looks like: sessions and absences alternate, every closed stay was opened just before, one announcement, nothing before creation |
| DeviceSessions.SessionsAlternate | src/device/mod.rs:829-1371 | on every run sessions open and close alternately, departures and returns are announced alternately, stays are paired, each last one open exactly as the table says; a device is announced once |
| DeviceEffects.CallDoes | src/device/mod.rs:829-1371 | a call's creations, sessions, stays, addresses and events about a device, but for new names, are exactly those its frame, report or sweep calls for, each with its contents |
| DeviceEffects.IpChangedExactly | src/device/mod.rs:910-946 | after any history a change of address is announced exactly when the frame's IPv4 address differs from the last one the device was seen using |
| DeviceEffects.IpChangesCounted | src/device/mod.rs:910-946 | over a run it is announced as often as that happens |
| DeviceEffects.EffectsAreTimed | src/device/mod.rs:829-1371 | every effect of a call happens at the call's time, and a call that is told no time has none |
| DeviceRecord.KnownIsHeard | src/device/mod.rs:831-846 | a device is in the table exactly when a frame from it was accepted |
| DeviceRecord.FirstIsTold | src/device/mod.rs:1025-1095 | its entry tells the time of its first frame, and whether learning was still on then |
| DeviceRecord.LastIsTold | src/device/mod.rs:948-948 | the interface kept is that of its last frame |
| DeviceRecord.EditIsTold | src/device/mod.rs:796-814 | name and notification flag are what the last edit since its first frame made them |
| DeviceRecord.UneditedIsTold | src/device/mod.rs:1025-1095 | with no such edit it has no name of the user's and is notified about |
| DeviceRecord.NameIsShown | src/device/mod.rs:229-240 | the name shown is the user's from the last edit on, unless blank, and otherwise the one the device goes by |
| DeviceRecord.LearningIsHistory | src/device/mod.rs:674-682 | learning is on from the start until it is ended, for good |
| Persistence.Persister.ApplyBatch | src/device/persist.rs:66-179 | the loop applies each effect's statement in order and returns the events recorded |
| Persistence.Persister.FlushBatch | src/device/persist.rs:181-230 | every known snapshot is written and its observations counted against the open session |
| Persistence.SessionsClosed | src/db/queries.rs:590-605 | closing leaves no open session of that device and every other device's as they were |
| Persistence.StreamMirrored | src/device/persist.rs:66-179 | a stream that keeps protocol leaves tables holding exactly the open rows it says |
| Persistence.TablesMirrorRun | src/db/queries.rs:543-605 | after any run ids are unique and the open presence and location rows are exactly those the table calls for |
| Persistence.OpenRowsExactly | src/db/queries.rs:764-802 | one open session exactly while not offline, one open stay exactly while on an access point |
| Persistence.StepDropsNothing | src/device/persist.rs:66-179 | every effect of every step finds its device's id when it is applied |
| PersistedRows.RowsAreTheEffects | src/db/queries.rs:543-605 | a device's presence rows are its openings, each ended at its next closing and counting what was flushed in between; its stays are its changes of access point, each ended at the next change or leaving |
| PersistedRows.SeenIsTheEffects | src/db/queries.rs:628-647 | the address and evidence tables hold the first time, the last time and the last interface of what was recorded, and nothing else |
| PersistedRows.EventsAreTheEffects | src/db/queries.rs:654-671 | the event rows are the events announced, in order, each under its device's id and at its time |
| PersistedRows.NoOtherRows | src/device/persist.rs:66-179 | every row belongs to a device that has an id |
| PersistedRows.LogIsTheRun | src/device/persist.rs:66-230 | the log these are read off holds the run's effects and flushes, none missing |
| PersistedRows.CloseReads | src/db/queries.rs:590-605 | closing ends the device's open rows at the time given and no other |
| PersistedRows.BumpReads | src/db/queries.rs:572-587 | counting adds to the device's open rows and no other |
| PersistedRows.LeaveReads | src/db/queries.rs:788-802 | leaving ends the device's open stays at the time given and no other |
| DeviceEvidence.PerformAccounts | src/device/mod.rs:389-417 | each operation records exactly the evidence the table gains, a blank vendor aside |
| DeviceEvidence.StoredEvidenceIsHeld | src/db/queries.rs:474-493 | after any run a signal is stored under a device's id exactly when the device holds it and it is not blank |
| DeviceEvidence.StoredIsHeld | src/identity/oui.rs:25-44 | with a vendor table that has no blank entry, stored and held evidence are the same |
| DeviceEvidence.BlankVendorIsNotStored | src/device/mod.rs:1025-1095 | and only then: a device with a blank vendor holds from its first frame on evidence that is not stored |
| DeviceRecency.MergedInOrder | src/device/mod.rs:389-417 | a batch goes before everything already held, in the order its signals first come in, and what is only held keeps its order |
| DeviceRecency.MergedLeads | src/device/mod.rs:370-417 | a batch that carries a kind decides the value used of it; one that does not leaves it |
| DeviceRecency.EvidenceIsFolded | src/device/mod.rs:829-1147 | on every run a device's evidence is the batches told about it, folded in one after another |
| DeviceRecency.BestIsLatest | src/device/mod.rs:370-417 | of every kind a device uses the first non-blank value in the last batch that carried one |
| DeviceRecency.WinnerIsLatest | src/identity/scorer.rs:54-115 | the winner is the latest value of the heaviest naming kind, else the vendor and what the device is, else the address |
| DeviceNaming.PendingIsRunStart | src/device/mod.rs:427-460 | the pending clock reads the start of the unbroken run of wins ending here, and is there exactly when one does |
| DeviceNaming.AdoptedExactlyWhen | src/identity/scorer.rs:138-185 | a name changes exactly when outranked, or when one equal-rank rival has won every decision over at least the settle window |
| DeviceNaming.AlternatingNeverSettles | src/identity/scorer.rs:150-185 | two names taking turns never displace the incumbent, however long they go on |
| DeviceNaming.AdoptionsBounded | src/device/mod.rs:427-460 | any log of decisions adopts at most (ranks - 1) + span / window names |
| DeviceNaming.RunExplains | src/device/mod.rs:972-994 | on every run a device's identity is that of its decisions replayed, and no rename is announced that was not one of their adoptions |
| DeviceNaming.RenamesAreReplayed | src/device/mod.rs:972-994 | on every run a device's announced renames are exactly the adoptions of its decisions replayed in order, its discovery's own left out |
| DeviceNaming.RenamesBounded | src/device/mod.rs:972-994 | a run announces at most 7 + (time known) / 300 s renames of one device |
| DeviceNaming.RankNeverFalls | src/device/mod.rs:427-460 | between any two points of any run a device's name never falls in rank |
| DeviceDecisions.FrameDecides | src/device/mod.rs:960-1013 | each accepted frame weighs its sender's name once and its class once, on all the evidence it then holds, and a change of type or family is concluded once, from the one to the other |
| DeviceDecisions.SignalDecides | src/device/mod.rs:1103-1147 | a signal from elsewhere rescores the device exactly if it is news and reclassifies it either way; a blank or a stranger's does neither |
| DeviceDecisions.FrameRenames | src/device/mod.rs:972-994 | a known device's frame announces a new name exactly when it goes by another afterwards, with what it then is; a first frame never does |
| DeviceDecisions.TransitionsAreDepartures | src/device/mod.rs:322-326 | the counter behind "always on" is how often the device has left |
| DeviceDecisions.UnattributedGrows | src/device/mod.rs:579-582 | the counter of unattributed claims grows by a frame's non-blank claims about nobody and by nothing else |
| DeviceAttribution.SubjectByTheRules | src/device/mod.rs:612-660 | the computed subject of a claim is the one and only one the attribution rules give |
| DeviceAttribution.SenderArmUnreachable | src/device/mod.rs:640-655 | a claim naming none of the sender's addresses is never found to be held by the sender |
| DeviceAttribution.ClaimsSorted | src/device/mod.rs:612-660 | the loop sorts the non-blank claims by subject, in order, losing and inventing none |
| DeviceAttribution.EvidenceProvenance | src/device/mod.rs:849-1020 | evidence recorded on another device is exactly the claims about it; on the sender, only claims about it, the frame's own, or its vendor |
| DeviceIndex.IndexIsLastUser | src/device/mod.rs:847-853 | on every run the index maps an address to the last device seen using it |
| DeviceIndex.HeldIsHistory | src/device/mod.rs:307-318 | a device's addresses are the last IPv4 and the last global, else link-local, IPv6 it was seen using |
| DeviceIndex.HolderAgreesWithHistory | src/device/mod.rs:589-593 | a lookup names a device exactly when it was the last to use the address and still uses it |
| DeviceSweeps.SweptState | src/device/mod.rs:1312-1371 | what one check makes of an entry: exactly when it goes offline or idle, and that a check changing no state changes nothing |
| DeviceSweeps.SweepIs | src/device/mod.rs:1312-1371 | a sweep's table does not depend on the order it visits, and it ends one session per departure |
| DeviceSweeps.OnlyTheLastSweepMatters | src/device/mod.rs:1312-1371 | sweeps in a row come to what the last alone comes to: same table, same departures, at most one each |
| DeviceHistory.LastHeardIsLatest | src/device/mod.rs:860-873 | the fold over the history is the latest time on any frame accepted from a device |
| DeviceHistory.SeenIsLastHeard | src/device/mod.rs:860-873 | on every run the time kept for a device is that latest time, and a device is known exactly if there was such a frame |
| DeviceHistory.LeavesExactlyWhen | src/device/mod.rs:1312-1371 | at a sweep exactly the devices leave that are not offline and whose latest frame is their offline timeout or more in the past |
| DeviceHistory.DeparturesAreSilent | src/device/mod.rs:1312-1371 | no run ever announces a departure before a silence of the offline timeout the device had then |
| DeviceHistory.AccessPointIsHistory | src/device/mod.rs:1173-1229 | a device is on an access point exactly when the last report about it while it was known named that one and it has not left since |
| DeviceHistory.OfflineOnAccessPoint | src/device/mod.rs:1182-1190 | an offline device is on an access point exactly when it was reported on one after it last left |
| DeviceHistory.PlaceIsWhereBrought | src/device/mod.rs:1173-1229 | access point and location are those of the last report that brought the device anywhere, if it has not left since |
| DeviceHistory.PlacedWhileOffline | src/device/mod.rs:1182-1190 | a run that ends offline with a stay open: one frame, a silence, a report |
| DeviceStates.StepState | src/device/mod.rs:883-901 | a frame makes its sender online, a sweep does what the silence says, and nothing else changes a state |
| DeviceStates.StateIsHistory | src/device/mod.rs:1312-1371 | on every run a device is offline exactly when a sweep since its last frame found it silent for its offline timeout, online exactly when none found it silent for its idle timeout |
| DeviceWriteback.CleanRowsAreCurrent | src/device/mod.rs:1375-1385 | at every point of every run the overlaid snapshots give the current columns of every clean device |
| DeviceWriteback.TakeFlushesEverything | src/device/mod.rs:1375-1385 | right after a take the overlay is the whole table |
| DeviceWriteback.ObservationsConserved | src/device/mod.rs:869-873 | per device, observations flushed plus those waiting are the frames accepted |
| DeviceWriteback.RowsAreLatestFlush | src/device/persist.rs:181-230 | every device with an id has its row, and the row shows the latest snapshot flushed for it in every column an update writes |
| DeviceWriteback.RowsTellBirths | src/db/queries.rs:368-391 | the columns only the insert writes are the device's own, whatever is flushed after |
| DeviceWriteback.CleanDevicesArePersisted | src/db/queries.rs:397-416 | at every point of every run a clean device's row is its current row, in every column |
| DeviceRows.UnflushedRows | src/db/queries.rs:368-423 | until something is flushed for it a device's row is what its first frame put there |
| DeviceUserEdits.PerformBlind | src/device/mod.rs:486-509 | no operation lets what users own into what the daemon holds, emits or flushes |
| DeviceUserEdits.EditsDoNotInterfere | src/device/mod.rs:796-814 | a run with its edits taken out is the same run but for names and notification flags |
| DeviceUserEdits.RunsDifferingInEdits | src/device/mod.rs:486-509 | two runs that differ only in edits have the same devices, dirty flags and non-event effects |
| DeviceUserEdits.QuietExactlyWhenUnchanged | src/device/mod.rs:796-814 | a batch with one row a device reports nothing exactly when it leaves the table as it was |
| DeviceUserEdits.ReportsLead | src/device/mod.rs:486-509 | what a batch reports of a device leads, change by change, from what the user read before it to what is read after it |
| Windows.BoundedMap.GetMut | src/analyze/window.rs:49-54 | a hit returns the value and refreshes its stamp, a miss changes nothing; only a hit joins the trace |
| Windows.BoundedMap.Insert | src/analyze/window.rs:73-78 | a new key in a full map costs one entry no fresher than any other, and nothing else |
| Windows.BoundedMap.EntryOrInsertWith | src/analyze/window.rs:58-70 | the value found or the default, under a fresh stamp |
| Windows.BoundedMap.Prune | src/analyze/window.rs:81-89 | exactly the entries older than the age go; an age too long to represent removes nothing |
| Windows.BoundedMap.EvictOldest | src/analyze/window.rs:111-122 | the search removes an entry with the least stamp and counts it |
| Windows.NeverOver | src/analyze/window.rs:58-78 | no trace of touches takes the map over capacity |
| Windows.HoldsMostRecent | src/analyze/window.rs:32-122 | with rising times the keys held are exactly those touched by fewer than `capacity` other keys since |
| SlidingWindows.DistinctWindow.Record | src/analyze/window.rs:147-171 | one recording, in place, and the count it returns |
| SlidingWindows.CountIsLive | src/analyze/window.rs:147-171 | the count never exceeds the distinct values inside the window and equals it while there was always room |
| SlidingWindows.CountWithinCapacity | src/analyze/window.rs:135-171 | nor does it exceed the capacity |
| SlidingWindows.RateWindow.Record | src/analyze/window.rs:209-220 | one event, in place, and the count it returns |
| SlidingWindows.RateCount | src/analyze/window.rs:198-220 | the count is exactly the events inside the window, up to the capacity |
| SlidingWindows.TooLongCountsNothing | src/analyze/window.rs:147-220 | a window too long to represent never counts anything |
| SlidingWindows.RecordingChangesNothing | src/analyze/window.rs:209-220 | recording an event leaves the window as it was exactly when it cannot be measured or is already full of this very moment |
| Gateway.AlwaysSensible | src/analyze/gateway.rs:104-124 | on every trace an answer is known exactly when its source is, and the candidates are few, distinct and short of the quorum |
| Gateway.BelievedSteady | src/analyze/gateway.rs:221-384 | one observation keeps what is configured, never weakens the address's source, and replaces a known hardware address only on stronger evidence |
| Gateway.SourcesHold | src/analyze/gateway.rs:308-384 | the same over whole traces |
| Gateway.ReplacedAtMostOnce | src/analyze/gateway.rs:339-384 | while the address stays, the hardware address is replaced at most once |
| Gateway.InferredWasPopular | src/analyze/gateway.rs:283-306 | an inferred address was asked about, by ordinary requests, by three different devices |
| Gateway.InferredSinceChange | src/analyze/gateway.rs:283-337 | and they asked between the change of address before it and the frame that brought it |
| Gateway.ProxyFrameTeachesNothing | src/analyze/gateway.rs:165-178 | a recognised proxy frame changes nothing but the report, even while still learning |
| Gateway.ReportNeverRead | src/analyze/gateway.rs:221-279 | neither the belief nor what is recognised depends on the report |
| Gateway.ProxyArpExactly | src/analyze/gateway.rs:165-178 | proxy ARP is an ARP reply from the believed gateway for an address not its own, while the switch is on |
| GatewayLearning.OneFrame | src/analyze/gateway.rs:221-259 | after one frame the hardware address is the sender's exactly if the sender speaks for the address now believed and nothing as good was known |
| GatewayLearning.FirstSpeakerIsLearned | src/analyze/gateway.rs:221-259 | while the address and its source stay, the hardware address is the first speaker's, and what it was until there is one |
| GatewayLearning.HardwareIsFirstSpeaker | src/analyze/gateway.rs:339-384 | on every trace, none being configured, it is the sender of the first frame to speak for the address since it was settled |
| GatewayLearning.AddressIsTheAnswer | src/analyze/gateway.rs:283-337 | on every trace the address is the configured one, else the router last named, else the one a third device last asked about, a request about a new candidate counting only while there is a slot for it |
| GatewayLearning.RouterBecomesAddress | src/analyze/gateway.rs:221-226 | a router named by DHCP becomes the address unless one is configured |
| GatewayLearning.InferredAtTheThird | src/analyze/gateway.rs:283-305 | with nothing better known an address is inferred at exactly the frame where a third device asks about it |
| Gateway.GatewayTracker.SetAddress | src/analyze/gateway.rs:308-337 | the address rule, on the fields |
| Gateway.GatewayTracker.SetHardware | src/analyze/gateway.rs:339-384 | the hardware address rule, on the fields |
| Gateway.GatewayTracker.NoteAsker | src/analyze/gateway.rs:283-306 | the quorum rule with both caps, on the fields |
| Gateway.GatewayTracker.Observe | src/analyze/gateway.rs:221-263 | the tracker's fields are the belief its observations lead to |
| Analysis.AlertsExactlyWhen | src/analyze/mod.rs:286-297 | remembering the last alert is enough: an alert is raised exactly when suspicious and every earlier alert is a cooldown old |
| ArpScanning.StateIsEvidence | src/analyze/arp_scan.rs:67-131 | the window kept is the window over the requests since the last alert |
| ArpScanning.AlertsAreFounded | src/analyze/arp_scan.rs:67-131 | an alert rests on at least the threshold of distinct targets asked within the window and after every earlier alert, each at least a window back |
| ArpScanning.AlertsExactly | src/analyze/arp_scan.rs:67-131 | with room for what is live, an alert is raised exactly when the evidence reaches the threshold and the cooldown allows |
| ArpScanning.AskedRead | src/analyze/arp_scan.rs:68-92 | a request counts exactly when it is an ordinary ARP request about a host address, held to the gateway's threshold exactly if its sender is believed to be the gateway |
| ArpScanning.BeyondCapacityNeverAlerts | src/analyze/arp_scan.rs:38-60 | a threshold above 512 is never reached |
| ArpScanning.TooLongNeverAlerts | src/analyze/window.rs:147-150 | nor is any threshold with a window too long to represent |
| ArpScanning.ArpScan.Analyze | src/analyze/arp_scan.rs:67-131 | the table and alert of one frame, the sender's log grown by it, and an alert exactly when the log calls for one |
| GratuitousArps.StateIsBurst | src/analyze/gratuitous_arp.rs:60-113 | the window kept is the window over the announcements since the last alert |
| GratuitousArps.AlertsExactly | src/analyze/gratuitous_arp.rs:60-113 | an alert is raised exactly when the burst reaches a threshold of at most 256 and every earlier alert is ten windows back |
| GratuitousArps.AnnouncesRead | src/analyze/gratuitous_arp.rs:60-69 | a coherent ARP frame counts exactly when it names one address as its sender's and its target |
| GratuitousArps.StepChangesNothing | src/analyze/gratuitous_arp.rs:60-113 | exactly when an announcement leaves its sender's state as it was |
| GratuitousArps.TooLongNeverAlerts | src/analyze/window.rs:209-212 | a window too long to represent never alerts |
| GratuitousArps.GratuitousArp.Analyze | src/analyze/gratuitous_arp.rs:60-113 | the table and alert of one frame, against the sender's log |
| ArpSpoofing.HolderRemembers | src/analyze/arp_spoof.rs:154-168 | the holder entry remembers the last alert of the claims on its address |
| ArpSpoofing.SpoofsExactlyWhen | src/analyze/arp_spoof.rs:99-151 | a claim alerts exactly when a stranger has the gateway's address, or the claim before it was somebody else's and within the grace period, and no alert is under 300 s old |
| ArpSpoofing.SpoofsByFrames | src/analyze/arp_spoof.rs:72-170 | of the frames claiming an address, one alerts exactly when it is the gateway's address from another device or the frame before was another device's within the grace period, and no alert is under five minutes old |
| ArpSpoofing.ClaimRead | src/analyze/arp_spoof.rs:76-103 | an ARP frame claims its sender address unless that is no host's or the gateway is answering for somebody else, and impersonates exactly when it is the gateway's from another device |
| ArpSpoofing.ArpSpoof.Analyze | src/analyze/arp_spoof.rs:72-170 | the table and alert of one frame, against the address's log; proxy ARP leaves both alone |
| IpConflicts.UsersRemember | src/analyze/ip_conflict.rs:88-104 | the entry holds the latest use, the last use by anybody else, and the last alert |
| IpConflicts.ConflictsExactlyWhen | src/analyze/ip_conflict.rs:88-117 | a use alerts exactly when the use before it was somebody else's and inside the window, and no alert is under 600 s old |
| IpConflicts.ConflictsByFrames | src/analyze/ip_conflict.rs:67-125 | of the frames using an address, one alerts exactly when the frame before was another device's within the window and no alert is under ten minutes old |
| IpConflicts.UseRead | src/analyze/ip_conflict.rs:67-90 | a frame with an IPv4 host address uses it unless the gateway is answering for somebody else |
| IpConflicts.IpConflict.Analyze | src/analyze/ip_conflict.rs:64-136 | the table and alert of one frame, against the address's log; proxy ARP leaves both alone |
| Chains.RecognisedTeachesNothing | src/analyze/gateway.rs:165-178 | a recognised frame leaves belief and tables as they were and raises no scan, spoof or conflict alert |
| Chains.ProxyArpIsInvisible | src/analyze/mod.rs:243-282 | taking every recognised frame out of any run changes neither belief, nor scan, spoof or conflict state, nor their alerts |
| Chains.FloodsSeeOnlyGratuitous | src/analyze/gratuitous_arp.rs:60-75 | the flood analyzer's table changes at a frame exactly when the frame is gratuitous and not already counted at that moment |
| Chains.QuietProxyArpIsInvisible | src/analyze/mod.rs:243-282 | taking every recognised frame that is not gratuitous out of any run changes no belief, no table and no alert of any analyzer |
| Chains.GratuitousProxyIsCounted | src/analyze/gratuitous_arp.rs:60-113 | a gratuitous one is not: a concrete frame that raises a flood alert |
| Chains.Chain.constructor | src/analyze/mod.rs:175-222 | exactly the enabled analyzers are built, thresholds and capacity clamped |
| Chains.Chain.Observe | src/analyze/mod.rs:243-252 | the tracker learns first, every analyzer reads the new belief, exempt devices' alerts go; disabled, nothing happens |
| Chains.Retain | src/analyze/mod.rs:263-281 | the loop drops exactly the exempt devices' alerts, in order |
| Dns.Walk | src/capture/dns.rs:160-203 | the loop terminates on every buffer and computes the bounded reading |
| Dns.TakeRecord | src/capture/dns.rs:125-151 | one record, its name walked, or nothing when it is not whole |
| Dns.OneSpelling | src/capture/dns.rs:160-203 | bytes at an offset spell at most one name |
| Dns.ReadNameExactly | src/capture/dns.rs:152-203 | reading succeeds with exactly the labels the bytes denote, by at most 16 backward pointers and 64 labels, and the name ends after it starts and inside the buffer |
| Dns.ReadsBack | src/capture/dns.rs:160-203 | a name written out in full is read back, wherever it stands |
| Dns.ReadsBackCompressed | src/capture/dns.rs:184-197 | a name written with a compression pointer to any name already spelled reads as the longer name |
| Dns.ParseMessage | src/capture/dns.rs:79-122 | the two loops compute the parsed message |
| Dns.MessageFits | src/capture/dns.rs:79-151 | whatever the header claims, 12 + 5 per question + 11 per record fits the buffer |
| DnsWriter.RecordReadsBack | src/capture/dns.rs:125-151 | a record written anywhere in a buffer is read from there, every field of it |
| DnsWriter.MessageReadsBack | src/capture/dns.rs:79-118 | what stands at the start of a buffer is received as it was sent, whatever follows it: flags, questions, and every record of the three sections |
| DnsWriter.RoundTrip | src/capture/dns.rs:79-151 | parsing the encoding of any well-formed message gives that message |
| Dns.ReadNameInPrefix | src/capture/dns.rs:160-203 | a name is read from a truncated buffer exactly when every byte it needs is still there |
| Dns.Truncation | src/capture/dns.rs:72-122 | a truncated message parses exactly when its questions are whole, with the same flags and questions and exactly the records before the first that needs a missing byte |
| Mdns.FirstMentionWins | src/capture/mdns.rs:373-379 | each list holds each of its values once, under the owner it was first mentioned with, and nothing else |
| Mdns.AddressesAreProved | src/capture/mdns.rs:199-262 | an owner is given exactly the addresses its host's address records carry, an instance's host being its first service record's |
| Mdns.ClaimsAreFirstMentions | src/capture/mdns.rs:151-237 | the claims are exactly the first mentions, each with the addresses proved for its owner |
| MdnsClaims.OffersAreClaimed | src/capture/mdns.rs:151-237 | whatever a record or a query's question offers first is claimed, with exactly the addresses the records prove for its owner |
| MdnsClaims.ClaimsAreOffered | src/capture/mdns.rs:151-237 | and every claim is of something offered first |
| MdnsClaims.InstanceIsClaimed | src/capture/mdns.rs:303-328 | the first instance of a name is claimed with exactly the addresses of the host its first service record names |
| MdnsClaims.HostIsClaimed | src/capture/mdns.rs:347-361 | the first host of a name is claimed with exactly the addresses published under it |
| MdnsClaims.PointerReadsBack | src/capture/dns.rs:215-218 | a pointer record's target is the name its data spells |
| MdnsClaims.ServiceReadsBack | src/capture/dns.rs:223-226 | a service record's target is the name behind its priority, weight and port |
| MdnsClaims.TxtReadsBack | src/capture/dns.rs:230-247 | a text record's strings, each behind its length, are read back |
| MdnsClaims.AddressIsWhole | src/capture/mdns.rs:252-266 | an address is read most significant byte first, and only when its record is the right size |
| Mdns.KeyIgnoresCase | src/capture/mdns.rs:270-272 | names that differ only in the case of ASCII letters compare equal |
| Mdns.KeyForgetsBoundaries | src/capture/mdns.rs:270-272 | two different names that share a key |
| MdnsNames.KeysAgreeExactly | src/capture/mdns.rs:264-272 | for all names: keys are equal exactly when the names cut at every dot are the same pieces but for case |
| MdnsNames.KeyExactly | src/capture/mdns.rs:264-272 | where no label is empty or holds a dot, keys are equal exactly when the names are the same but for case |
| MdnsNames.HostAddressesExactly | src/capture/mdns.rs:240-248 | in any message a host is given exactly the addresses of the records whose names come to the same pieces |
| MdnsNames.HostAddressesByName | src/capture/mdns.rs:240-248 | in a message of plain names a host is given exactly the addresses published under its own name |
| MdnsNames.InstanceAddressesByName | src/capture/mdns.rs:207-217 | in a message of plain names an instance is given exactly the addresses published under the host its own first service record names |
| MdnsNames.ClaimAddressesAreItsOwn | src/capture/mdns.rs:151-237 | in a message of plain names every address given to a claim comes from a record of the very name the claim was mentioned under, or of its service record host |
| MdnsNames.DottedHostGetsBoth | src/capture/mdns.rs:151-237 | a response in which a claim about a dotted host is also given the address of another host |
| Mdns.Push | src/capture/mdns.rs:373-379 | a value is appended unless its list already holds it |
| Mdns.ExtractClaims | src/capture/mdns.rs:151-237 | the two passes compute the claims |
| Dedup.SameKey | src/capture/dedup.rs:81-88 | two sightings share a key exactly when device, kind and bucket of whole seconds agree |
| Dedup.AdmittedSpaced | src/capture/dedup.rs:48-61 | admissions of one key have at least `capacity` others between them |
| Dedup.LastDistinct | src/capture/dedup.rs:48-61 | the keys retained are distinct |
| Dedup.SuppressedExactlyWhen | src/capture/dedup.rs:48-61 | a sighting is suppressed exactly when its key is among the last `capacity` admitted |
| Dedup.ObservationDedup.Admit | src/capture/dedup.rs:48-61 | set and queue stay in step with the last keys admitted; admitted and suppressed add up to the calls |
| Dedup.ObservationDedup.Len | src/capture/dedup.rs:71-73 | the set is as large as the queue and within capacity |
| Base64.Base64Bytes | src/capture/ssdp.rs:227-256 | the register loop yields the whole bytes of the bits written, read as one number, and nothing on malformed input |
| Base64.ShiftIn | src/capture/ssdp.rs:246-248 | shifting in six bits modulo 2^32 keeps the register the number's low bits |
| Base64.ShiftOut | src/capture/ssdp.rs:249-253 | the byte taken out is the same as if no high bit had fallen off |
| Base64.DecodesOneWay | src/capture/ssdp.rs:240-256 | the decoding promise leaves one answer |
| Base64.RoundTrip | src/capture/ssdp.rs:240-256 | decoding the encoding of any bytes, padded or not, gives the bytes back |

## Left out

- Restoring the table from the database at start-up: runs start empty.
- `person_event` and `security_event`, which build an event from their arguments.
- JSON event details, log lines, and the `display` text of addresses.
- Device entries are values in a map field rather than heap objects: the source owns each entry in its map and never shares one, so no aliasing is lost.  Likewise `Tracked`, `Holder` and `Users`.
- Database write failures and retries: effects are applied successfully and in order.
- Summary presence rows, which none of the statements modelled here writes.
- Chains.Chain.constructor: builds four of the six analyzers; `rogue_dhcp`, `identity_change` and reclassification stimuli are left out.
- The columns of a device's row that are its user's, and the `sync_state` flag beside them.
- DeviceEvidence.PerformAccounts: for non-blank signals, or any signal when no vendor is blank.
- Classification, fingerprints, reverse DNS and the vendor registry: arbitrary functions here.
- The frame parsers below the observation (Ethernet, ARP, NDP, NetBIOS, SSDP headers, DHCP options); what the ARP parser guarantees is the predicate `Gateway.Coherent`.
- Lossy UTF-8 decoding of labels and the UTF-8 check after base64.
- Hash collisions in the dedup key, which is taken as the triple it hashes.
- Machine-integer overflow of event counters and byte offsets, which take longer than 2^63 steps to reach; the offline transition counter's saturation and the 32-bit base64 register are modelled.
- Configuration loading, notification delivery, people, maintenance, HTTP, channels and tasks.
- DeviceNaming.RenamesBounded: for runs whose clock never goes back, as its bound is in terms of elapsed time.
- Windows.HoldsMostRecent: for strictly increasing times without pruning; equal times leave the choice to the map's iteration order.
- ArpScanning.AlertsExactly: for requests in time order and no more than 512 targets live at once; beyond that `ArpScanning.AlertsAreFounded` still holds.
- DnsWriter.RoundTrip: for names written in full; compressed ones are `Dns.ReadsBackCompressed`.
- Dns.Walk: keeps labels as raw bytes rather than text.

# Joppilot: the two-gate command protocol and its evidence trail

A Dafny model, with proofs, of how a remote operator's command reaches a vehicle and of
the evidence both sides keep. It spans the vehicle's safety kernel (Gate 2), the cloud
services that sign, fence, filter and record (Gate 1), the actuation bridge, and the fleet
workflow that must precede every mission. `dafny verify dfyconfig.toml` checks everything.

## How the model is built

Code that updates state in place is a class (`VehicleKernel.SafetyKernel`,
`VehicleLog.EventLog`, `Dedup.DedupStore`, `Bridge.ControlState`,
`EdgeLogIngest.MqttService`, `Session.SessionService`, `Session.AssignmentService`,
`Zone.ZoneService`, `CommandGate.CommandController`, the four classes of `FleetServices`).
Each of its methods is proved equal to one pure step function, or has its whole new state
stated outright; the claims are then proved about those functions over every run.

| files | subject |
|---|---|
| `Contract`, `SortedEntries`, `JsonText`, `JsonRoundTrip`, `Canonical`, `Signing` | the contract's tables; JSON as the cloud prints it and the vehicle parses and reprints it; what a signature covers |
| `VehicleLog`, `Dedup`, `KernelSpec`, `Kernel` | the kernel: event buffer, answer store, one step per message and timer tick |
| `KernelSafety`, `KernelLiveness`, `KernelMonitors`, `KernelDedup`, `KernelManeuver` | the kernel over whole runs |
| `Bridge`, `KernelBridge`, `BridgeControls` | the bridge, kernel and bridge composed, and what the bridge applies told by the events alone |
| `EdgeLogIngest`, `LogSync`, `LogSyncRuns`, `KernelLogSync`, `KernelUploads` | evidence ingestion, the lossless handshake as a distributed protocol, its composition with the kernel, and the kernel's own uploads |
| `Session`, `SessionHistory`, `Deadman` | the session lock, its gates over histories of calls, and its concurrent protocol with the deadman timers |
| `Fencing`, `FencingRaces` | lock, dispatch, network and vehicle together: fencing end to end, and the runs that upset it |
| `Zone`, `CommandGate`, `Gates` | zone configuration, Gate 1, and both gates payload by payload |
| `FleetSpec`, `FleetServices`, `FleetSafety`, `FleetReports`, `FleetAudit` | checklists, missions, what the requests tell of them, and the audit trail |

Grain. One kernel message or tick, one controller request and one fleet request is one
atomic step with one clock reading. Finer steps are modelled where the claims depend on
them. In `LogSync` the lookup and the write of every evidence row are separate steps of
interleaved handlers. In `Deadman` every Redis operation and timer callback is its own step,
across any number of instances. `Fencing` runs that protocol together with the kernel: a
grant is stamped in one step and written in a later one, a command checks its token, reads
the token's time and is published in three, and a deadman stop is decided and signed in two;
`Gates.SameEnvelope` ties the one-step dispatch of `CommandGate` to those steps.
Channels lose, duplicate and reorder: a message once published may be delivered at any later
time, any number of times, or never. Kernel runs assume no clock order except where a lemma
asks for it (`ClockOk`). An Ed25519 signature is an arbitrary function or relation on texts;
in the composed protocols a signed message is one the cloud published.

Results that differ from what the code's comments or documents suggest, each with the exact
condition under which the code does what they say:

- `revoke` says it never deletes a successor's lock. Its read and its delete are two
  operations: `Deadman.RevokeSeversAnotherIff` states exactly when the delete removes another
  operator's living session, and `Deadman.RevokeCanSeverSuccessor` gives a run.
- Fencing is meant to let the living holder through and keep earlier sessions out. Requests
  that overlap inside the cloud can break both: grants may be written against the order of
  their stamps (`Deadman.GrantsCanReorder`), and a command reads the lock twice, once for the
  token and once for its time, which falls back to the present. `Fencing.HolderFencedIff`,
  `Fencing.EarlierSessionFencedIff` and `Fencing.OwnStampIff` are exact;
  `FencingRaces` follows three such runs to the vehicle's answer; `Fencing.HolderNeverFenced`
  shows that requests which keep order are safe, uninterrupted ones among them
  (`Fencing.WrittenWhenStamped`). Two grants in one millisecond are never told apart
  (`Fencing.FencedIff`).
- Ingestion is described as idempotent. `LogSyncRuns.ExactlyOnceIff` proves one row per event
  if and only if no row of a key lands between a handler's empty lookup and its write, as
  with serialised handlers (`LogSyncRuns.ExactlyOnce`); `LogSyncRuns.OverlapDuplicates` shows
  two overlapping handlers leaving two. At-least-once (`LogSync.Lossless`) needs no such
  condition.
- A bridge that lags is said to re-converge on state snapshots. Its latch does
  (`KernelBridge.SnapshotReconverges`); its throttle does not
  (`KernelBridge.MissedStopKeepsThrottle`), and `KernelBridge.ThrottleIff` is exact.
- Gate 1 honours a permit's `validFrom` without a `validUntil`, but the delivered document
  then carries no permit: `Zone.GatesAgreeIff` states exactly when the two gates agree. The
  zone endpoint rules the disagreement out where it would matter
  (`CommandGate.VehicleAcceptsOnlyWhatGate1Does`).
- Row keys `vlog-vehicle-boot-seq` are unique for hyphen-free boot ids
  (`EdgeLogIngest.VlogKeyInjective`) and collide without that
  (`EdgeLogIngest.HyphenatedBootCollides`); `EdgeLogIngest.SameKeyIff` is exact.
- Signer and verifier sort keys differently (UTF-16 units and bytes):
  `Canonical.AstralKeysDisagree` gives keys on which they part and
  `Canonical.KeyOrdersAgreeIff` states exactly when two keys agree; the contract's own keys
  are all ASCII.
- The audit rows determine a mission's state only up to whether its checklist has been
  linked, which writes no row (`FleetAudit.TrailDeterminesState`, `FleetAudit.RowsHideLink`).
- Points 1 and 2 of `CONTRACT.md` describe an earlier code; the code is what is modelled.

## Model

| member | source | states |
|---|---|---|
| Contract.PolicyMirrorsContract | edge/sim/src/main.rs:317-362 | on the generated policy document the vehicle's mode inference, zone matrix and diagnostic rule equal the contract's, for every action, zone and mode |
| Gates.GeneratedReadsAs | packages/contract/src/index.ts:68-121 | which payloads are Mode 2 driving, diagnostic or disruptive and which zones allow each mode, payload by payload and zone by zone, as both gates read the tables |
| JsonRoundTrip.ParseStringify | services/command/src/mqtt.service.ts:303 | a printed value, followed by a delimiter, parses back to its canonical form: keys sorted, undefined fields gone, strings unescaped, any nesting |
| JsonRoundTrip.WireRoundTrip | services/command/src/mqtt.service.ts:303 | parsing the insertion-order wire text of a document gives exactly its canonical form |
| Canonical.CanonicalIsPrint | packages/contract/src/index.ts:239-250 | canonicalStringify of a document with ASCII keys is the plain print of its canonical form |
| Canonical.ParseCanonical | packages/contract/src/index.ts:239-250 | parsing the canonical text gives the document with keys sorted and undefined fields dropped |
| Canonical.SignedBytesDetermineDocument | packages/contract/src/index.ts:239-250 | two documents have the same canonical text if and only if they are equal up to key order and undefined fields, at every depth |
| Canonical.AstralKeysDisagree | packages/contract/src/index.ts:239-250 | with keys outside ASCII the signer's order and the verifier's order differ |
| Canonical.KeyOrdersAgreeIff | packages/contract/src/index.ts:239-250 | the signer and the verifier order two keys alike if and only if the keys do not part at a character above the basic plane against one from U+E000 to U+FFFF |
| Signing.SignSendVerify | services/command/src/signing.service.ts:50-55 | after signing, wire transport, parsing, dropping the signature and reprinting, the vehicle checks exactly the bytes the cloud signed against exactly that signature, and acts on the canonical document |
| Signing.AcceptedWasSigned | edge/sim/src/main.rs:270-282 | if the vehicle's input for a received text is a message the cloud signed, the received document is the signed one up to key order and undefined fields |
| Signing.ParsedNormal | edge/sim/src/main.rs:270-282 | whatever the vehicle's parser accepts has strictly sorted keys and no undefined part, at every depth |
| VehicleLog.AppendKeepsWindow | edge/sim/src/main.rs:415-431 | recording keeps the buffer a gapless window ending at the newest event, losing at most the oldest, which is counted, and only when full |
| VehicleLog.TrimIsFilter | edge/sim/src/main.rs:1295-1297 | popping from the front removes exactly the confirmed sequence numbers |
| VehicleLog.EventLog.LogEvent | edge/sim/src/main.rs:415-431 | the buffer after recording, and the event recorded |
| VehicleLog.EventLog.TrimAcked | edge/sim/src/main.rs:1292-1298 | the pop loop leaves exactly the unconfirmed events |
| Dedup.RememberRefines | edge/sim/src/main.rs:372-382 | answering a new id keeps the bounded store equal to the last 4096 answers of the unbounded history |
| Dedup.StoreBounded | edge/sim/src/main.rs:368-382 | at most 4096 entries, map keys are the queue's ids, no id twice |
| Dedup.ReplayIsExact | edge/sim/src/main.rs:1444-1450 | an id is in the store if and only if it is among the last 4096 answers, and then with its own answer |
| Dedup.DedupStore.RememberAck | edge/sim/src/main.rs:372-382 | the store after remembering an answer |
| KernelSpec.JudgeAfterToken | edge/sim/src/main.rs:1489-1502 | registering the token first changes neither the verdict nor the outcome of an envelope that passes the token gate |
| VehicleKernel.SafetyKernel.HandleCommand | edge/sim/src/main.rs:1408-1738 | the command pipeline's new state and everything it sends are the specified step |
| VehicleKernel.SafetyKernel.HandleEnvelope | edge/sim/src/main.rs:1444-1523 | de-duplication, target, TTL, token and stop handling, in that order |
| VehicleKernel.SafetyKernel.HandleNonStop | edge/sim/src/main.rs:1525-1738 | mode, latch, zone, permit speed, diagnostics and maneuver gates, in that order |
| VehicleKernel.SafetyKernel.HandleDecision | edge/sim/src/main.rs:1631-1722 | a maneuver decision against the active proposal |
| VehicleKernel.SafetyKernel.HandleDeadman | edge/sim/src/main.rs:1244-1273 | a liveness ping: signature, target, freshness, replay check |
| VehicleKernel.SafetyKernel.HandleLogAck | edge/sim/src/main.rs:1275-1312 | a log-sync ack: signature, target, boot, trim, in-flight slot |
| VehicleKernel.SafetyKernel.HandleZoneConfig | edge/sim/src/main.rs:1323-1406 | a zone document: fail-safe checks, contact before the revision check, apply and record |
| VehicleKernel.SafetyKernel.TickWatchdog | edge/sim/src/main.rs:785-815 | the cloud-silence watchdog tick |
| VehicleKernel.SafetyKernel.TickPose | edge/sim/src/main.rs:818-856 | the pose-silence watchdog tick |
| VehicleKernel.SafetyKernel.TickTelemetry | edge/sim/src/main.rs:858-931 | the 10 Hz tick: motion model and geofence trigger |
| VehicleKernel.SafetyKernel.TickSync | edge/sim/src/main.rs:1007-1039 | the 1 Hz upload tick with its in-flight slot and 5 s retry |
| VehicleKernel.SafetyKernel.TickProposal | edge/sim/src/main.rs:1041-1171 | the proposal tick: expire or offer |
| KernelSafety.ActuatesIff | edge/sim/src/main.rs:1456-1738 | an operational command event leaves the kernel if and only if a signed envelope meets every gate: fresh id, target, TTL, token, derived mode, unlatched, territory, zone, permit speed, diagnostics, maneuver |
| KernelSafety.ActuationSafety | edge/sim/src/main.rs:1456-1738 | over whole runs: such an event means the evidence trail ends unlatched, every gate held at that step, and no token seen earlier was newer |
| Gates.AnsweredByFirstGate | edge/sim/src/main.rs:1456-1733 | a fresh operational command meets eleven checks, with places, zones, windows and speeds in numbers, in the source's order: it is acknowledged and actuated if all hold, else answered with the reason of the first that fails, a territory failure also latching and being recorded with the position |
| Gates.DrivenOnlyUnderPermit | edge/sim/src/main.rs:1525-1620 | over any run: whenever an operational event carries a steer, drive, direction, creep, turn, park or lights payload the vehicle is unlatched and inside the rectangle, a permit zone is in force, and the zone is still a permit-zone seed or an earlier document's record names a permit in whose window and under whose speed limit the event falls |
| Gates.DisruptedOnlyWhenSafe | packages/contract/src/index.ts:82-109 | restarts and configuration updates reach the actuators only unlatched and inside the rectangle, on a public route only below 0.5 km/h |
| Gates.StopsExactly | edge/sim/src/main.rs:1504-1523 | a fresh stop, anything on the estop topic included, latches, tells the bridge, is recorded by its kind and acknowledged if and only if it is for this vehicle and not fenced off |
| Gates.ReleasesExactly | edge/sim/src/main.rs:1540-1564 | a latched vehicle lets go on a fresh, addressed, timely, unfenced Mode 1 CLEAR_SAFE_STOP and then tells the bridge and records who cleared; an unlatched one acknowledges it and does nothing; otherwise nothing moves |
| KernelSafety.LatchMatchesLog | edge/sim/src/main.rs:1509-1590 | in every reachable state the latch is what the last latch event ever recorded says |
| KernelSafety.ReleasedIff | edge/sim/src/main.rs:1540-1564 | a latched kernel is released by an authorised CLEAR_SAFE_STOP and by nothing else |
| KernelSafety.LatchHolds | edge/sim/src/main.rs:1540-1564 | between a latched and an unlatched state of any run lies an authorised clear |
| KernelSafety.StopAlwaysEngages | edge/sim/src/main.rs:1504-1523 | a signed, addressed, unfenced, unrepeated stop latches and is acknowledged whatever its age, mode or zone |
| KernelSafety.RefusalMovesNothing | edge/sim/src/main.rs:1444-1720 | every signed envelope gets exactly one answer, and a fresh refused one actuates, records and decides nothing, except that leaving the territory latches |
| KernelSafety.TokensNeverDecrease | edge/sim/src/main.rs:1489-1502 | token times that pass the gate never decrease over a run |
| KernelSafety.OlderTokenRefused | edge/sim/src/main.rs:1489-1502 | after a token has passed, a fresh envelope with an older one is refused and moves only contact and the stored answer |
| KernelLiveness.BoundedSilence | edge/sim/src/main.rs:793-815 | with watchdog ticks at most P apart, armed and unlatched implies contact within 3000 + P ms, at every instant of every run |
| KernelLiveness.WatchdogFiresIff | edge/sim/src/main.rs:799-813 | the watchdog fires exactly on an armed, unlatched kernel silent for over 3 s, and records the length of the silence |
| KernelMonitors.ArmedByContact | edge/sim/src/main.rs:1235-1441 | in every reachable state the watchdog is armed exactly if something counted as contact, and counts from the last such message: a signed envelope, a counting ping, an ack for this boot, a zone document for this vehicle |
| KernelMonitors.PoseIsTruth | edge/sim/src/main.rs:755-776 | once a pose was fed, position and pose time are those of the last pose, whatever else happened |
| KernelMonitors.SpeedIsTruth | edge/sim/src/main.rs:755-776 | once a speed was fed, the kernel's speed is the last one fed, poses without one included |
| KernelMonitors.GeofenceFiresIff | edge/sim/src/main.rs:911-931 | a telemetry tick latches, tells the bridge and records the coordinates exactly when the unlatched vehicle lies outside 47.37..47.38 by 8.53..8.55 or its zone in force is out of the territory, fed pose or not; otherwise it changes nothing but the built-in model |
| KernelMonitors.StrayIsCaught | edge/sim/src/main.rs:867-931 | with telemetry ticks at most P apart, at any instant of any run an unlatched vehicle off the rectangle was put there by a pose or a release at most P ago, with no tick since |
| KernelMonitors.PoseSilenceFiresIff | edge/sim/src/main.rs:829-853 | the pose watchdog fires exactly on an unlatched vehicle whose fed pose has been silent for over 3000 ms |
| KernelMonitors.BoundedPoseSilence | edge/sim/src/main.rs:818-856 | with pose ticks at most P apart, an unlatched vehicle on a fed pose had one within 3000 + P ms or was released within P, at every instant of every run |
| KernelLiveness.PingCountsOnce | edge/sim/src/main.rs:1254-1266 | the pings that count as contact have strictly increasing timestamps |
| KernelMonitors.PingCountsIff | edge/sim/src/main.rs:1244-1266 | a ping counts if and only if it is signed, for this vehicle, stamped within 10 s of now and later than every ping that counted before in the run |
| KernelLiveness.ModelStaysInside | edge/sim/src/main.rs:885-909 | until a pose is fed the motion model never leaves the approved territory |
| KernelLiveness.ModelSpeedCapped | edge/sim/src/main.rs:885-899 | while the model drives, an active permit's limit caps the speed |
| KernelMonitors.ZoneMatchesLog | edge/sim/src/main.rs:1374-1406 | in every reachable state the zone and revision held are those the evidence trail last recorded, or the seed |
| KernelDedup.StoreRefinesHistory | edge/sim/src/main.rs:368-382 | in every reachable state the bounded store is the tail of the unbounded answer history |
| KernelDedup.StoreStaysBounded | edge/sim/src/main.rs:368-382 | the store never exceeds 4096 entries however long the kernel runs |
| KernelDedup.RedeliveryReplays | edge/sim/src/main.rs:1444-1450 | a redelivery within the next 4096 answers repeats the first answer and changes nothing but contact |
| KernelDedup.DualEstopAppliesOnce | services/command/src/command.controller.ts:389-411 | the two E-STOP copies, in either order, latch once, record once, actuate once and answer alike |
| KernelManeuver.OneOutcomePerProposal | edge/sim/src/main.rs:1072-1154 | over any run: offers at least 120 s apart, at most one outcome each, DECIDED only before the deadline on an offered option, TIMED_OUT only from the deadline on |
| KernelManeuver.DecidedAsAsked | edge/sim/src/main.rs:1676-1718 | in every run a decision selects the option the operator named, the first one for a bare confirmation, none for a rejection |
| KernelManeuver.ProposesIff | edge/sim/src/main.rs:1072-1154 | a proposal tick offers exactly when unlatched, with nothing pending and the last offer 120 s old, for 30 s and with the second option as default; it times out exactly a pending proposal past its deadline on an unlatched vehicle |
| Bridge.ControlState.Apply | edge/carla-bridge/bridge.py:83-125 | the controls after a verified command |
| Bridge.ControlState.ReadEvents | edge/carla-bridge/bridge.py:207-225 | the controls after reading a stream of kernel events |
| Bridge.ControlState.OnLinkLost | edge/carla-bridge/bridge.py:271-275 | losing the kernel latches and stops |
| Bridge.ControlState.Actuate | edge/carla-bridge/bridge.py:248-261 | the actuation actually applied, latch and creep governor included |
| BridgeControls.ControlsAsSaid | edge/carla-bridge/bridge.py:83-125 | after any stream of events each control is what the last event that speaks of it said: brake b/100 of a DRIVE, 1 for a stop, park or new latch, 0 for creep, release or unpark; throttle t/100 of a DRIVE; steer angle/45 of a STEER or plus or minus 0.5 of a TURN; reverse exactly after REVERSE; hand brake and creep target likewise |
| BridgeControls.LastWordStands | edge/carla-bridge/bridge.py:207-225 | the last word is that of the last event that says anything about the control |
| BridgeControls.AppliedAsSaid | edge/carla-bridge/bridge.py:248-261 | what is applied: full brake while latched, else the last words, braking at least 0.3 without throttle above the creep speed |
| BridgeControls.DriveReachesWheels | edge/sim/src/main.rs:1724-1733 | a DRIVE that meets every gate of the kernel is the next throttle and brake the bridge applies, in hundredths, whatever it was told since it connected |
| KernelBridge.BridgeFollowsKernel | edge/sim/src/main.rs:703-783 | after consuming what was sent since it connected, the bridge's latch is the kernel's, latched means full brake and hand brake, and throttle needs a later DRIVE or CREEP |
| KernelBridge.SnapshotReconverges | edge/sim/src/main.rs:965-997 | whatever a lagging bridge missed, one heartbeat snapshot puts it back on the kernel's latch until that changes |
| KernelBridge.ThrottleIff | edge/carla-bridge/bridge.py:83-125 | whatever was sent and whichever of it was delivered, the bridge has throttle if and only if a DRIVE or CREEP was delivered and no latch, stop, release, neutral, park or zero throttle delivered since; it applies it if and only if moreover the last latch value delivered is unlatched |
| KernelBridge.MissedStopKeepsThrottle | edge/sim/src/main.rs:752 | a bridge that misses a stop and its release drives on with the old throttle after the next heartbeat, where one told everything stands still |
| EdgeLogIngest.SameKeyIff | services/command/src/mqtt.service.ts:260 | exactly when two event identities share a row key |
| EdgeLogIngest.VlogKeyInjective | services/command/src/mqtt.service.ts:260 | for hyphen-free boot ids the row key is injective |
| EdgeLogIngest.HyphenatedBootCollides | services/command/src/mqtt.service.ts:260 | with a hyphen in a boot id two vehicles can share a key |
| EdgeLogIngest.IngestFacts | services/command/src/mqtt.service.ts:258-275 | ingestion only appends, keeps keys unique, and adds exactly the batch's keys |
| EdgeLogIngest.AddsOnlyOwnRows | services/command/src/mqtt.service.ts:246-275 | whatever a vehicle publishes, an accepted batch adds only rows of that vehicle and of one boot, each an event of the batch under its own key |
| EdgeLogIngest.RedeliveryAddsNothing | services/command/src/mqtt.service.ts:258-275 | ingesting any part of an ingested batch again, whatever came between, changes nothing |
| EdgeLogIngest.OneRowPerIdentity | services/command/src/mqtt.service.ts:246-275 | any sequence of overlapping and redelivered batches, handled one at a time, leaves exactly one row per event identity in it |
| EdgeLogIngest.MqttService.RecordEdgeLogBatch | services/command/src/mqtt.service.ts:229-290 | rows and ack of one batch, a database failure at any event included |
| EdgeLogIngest.MaxNumberIsMax | services/command/src/mqtt.service.ts:287 | the number an ack confirms is the greatest in the batch, and one of them |
| EdgeLogIngest.LatchTrailKept | services/command/src/mqtt.service.ts:183-222 | heartbeats leave latch rows that alternate per vehicle and end on the state last heard |
| EdgeLogIngest.MqttService.RecordLatchTransition | services/command/src/mqtt.service.ts:183-222 | one heartbeat's latch flag: the row it adds, if any, and the spoofed ones it ignores |
| LogSync.Lossless | services/command/src/mqtt.service.ts:246-289 | after any run of losses, duplicates, reorderings, interleaved and dying handlers and reboots, each event of the current boot is buffered, evidenced or a counted eviction, and the counts balance |
| LogSync.TrimmedIsEvidenced | edge/sim/src/main.rs:1285-1298 | an ack discards only events that are in the evidence store |
| LogSync.UploadsAreAttributed | services/command/src/mqtt.service.ts:246-256 | every batch a vehicle uploads passes the cloud's attribution check |
| LogSync.StepKeeps | services/command/src/mqtt.service.ts:246-289 | every step of vehicle, channel and cloud keeps the protocol invariant |
| LogSyncRuns.HandlerRefinesIngest | services/command/src/mqtt.service.ts:258-289 | a handler that nothing interrupts ingests the rest of its batch and acknowledges it |
| LogSyncRuns.DrainEmpties | edge/sim/src/main.rs:1007-1039 | from any reachable state the run of k clean rounds is possible and removes exactly the first 100 k events; with enough of them the buffer is empty and every event evidenced or evicted |
| LogSyncRuns.AcksDrain | edge/sim/src/main.rs:1285-1307 | while nothing is recorded the buffer never grows under any faults, and any run in which ceil(n / 100) acks of a front batch are delivered empties it, with every event evidenced or evicted |
| LogSyncRuns.UniqueIffNoRace | services/command/src/mqtt.service.ts:258-275 | after any run the evidence keys are unique if and only if no row of a key landed between a handler's empty lookup of that key and its write (and no other vehicle's row repeated one) |
| LogSyncRuns.ExactlyOnceIff | services/command/src/mqtt.service.ts:246-275 | under any faults and overlaps, every event of the boot that left the buffer unevicted has one row and no key two, if and only if no such race happened |
| LogSyncRuns.ExactlyOnce | services/command/src/mqtt.service.ts:246-275 | in particular with serialised handlers |
| LogSyncRuns.OverlapDuplicates | services/command/src/mqtt.service.ts:258-275 | two overlapping handlers can leave two rows for one event |
| KernelLogSync.KernelStepRefines | edge/sim/src/main.rs:1285-1307 | every kernel step is at most one enabled protocol step with the same effect on log, history and uploads |
| KernelLogSync.KernelLosesNothing | edge/sim/src/main.rs:415-431 | after any joint run of kernel, channel, cloud and restarts, each event the kernel recorded since boot is in its buffer, in the evidence store or counted as dropped |
| KernelUploads.UploadsIff | edge/sim/src/main.rs:1014-1037 | an upload tick uploads exactly when the link is up, the queue takes it, there is something to confirm, and nothing is in flight or the last upload is at least 5000 ms old; and then the oldest min(100, n) events |
| KernelUploads.UploadsKeepComing | edge/sim/src/main.rs:1007-1039 | over any run with upload ticks at most P apart: while the link is up and the buffer is not empty an upload was made within the last 5000 + P ms, whatever was lost |
| KernelUploads.AckFreesSlot | edge/sim/src/main.rs:1290-1305 | an ack trims what it confirms, and once it covers the upload in flight the rest is due at the next tick |
| KernelUploads.UploadAckConfirms | edge/sim/src/main.rs:1275-1305 | the ack for a tick's upload confirms the whole front batch while the front is still the one uploaded |
| KernelUploads.KernelDrains | edge/sim/src/main.rs:1275-1312 | in any joint run of kernel, channel and cloud in which the kernel records nothing, ceil(n / 100) delivered acks of a front batch leave its buffer empty with every event evidenced or evicted; and it never grows |
| Session.SessionService.TakeControl | services/command/src/session.service.ts:38-54 | granted exactly when no session lives; lock, timer and grant agree |
| Session.SessionService.Heartbeat | services/command/src/session.service.ts:56-68 | alive exactly for the holder of the living lock, whose life and timer restart |
| Session.SessionService.Handover | services/command/src/session.service.ts:102-115 | a new session whatever lived there |
| Session.SessionService.TimerFires | services/command/src/session.service.ts:85-97 | a due timer is consumed and stops the vehicle exactly if no session lives |
| Session.SessionService.TriggerSafeStop | services/command/src/session.service.ts:117-164 | the evidence row, the stop envelope, and the second row when the publish fails |
| SessionHistory.ValidIff | services/command/src/session.service.ts:166-170 | over any history of take-controls, heartbeats, handovers and revocations an operator's token is valid if and only if some grant of it is still held: neither replaced nor revoked since, and never left 6 s without a heartbeat |
| SessionHistory.HeldIsLocked | services/command/src/session.service.ts:172-175 | while a grant is held the token time read for it is the instant of that grant |
| SessionHistory.TokenTimeNeverOlder | services/command/src/session.service.ts:172-175 | the token time read, the fallback included, is never older than any grant made before the read |
| Session.AssignmentService.Assign | services/command/src/assignment.service.ts:52-74 | idempotent; never two active rows for one operator and vehicle |
| Session.AssignmentService.Revoke | services/command/src/assignment.service.ts:81-105 | ends the operator's authority and, exactly when it is theirs, the living session; nobody else's |
| SessionHistory.CanControlIff | services/command/src/assignment.service.ts:38-50 | with enforcement on, after any history of assignments an operator passes the take-control gate exactly when assigned to the vehicle and not unassigned since |
| Deadman.UninterruptedTake | services/command/src/session.service.ts:38-54 | the protocol's steps for one uninterrupted take-control have the method's effect |
| Deadman.UninterruptedHeartbeat | services/command/src/session.service.ts:56-68 | the same for a heartbeat |
| Deadman.UninterruptedHandover | services/command/src/session.service.ts:102-115 | the same for a handover |
| Deadman.UninterruptedRevoke | services/command/src/assignment.service.ts:90-101 | the same for a revocation's read and delete |
| Deadman.UninterruptedTimer | services/command/src/session.service.ts:85-97 | the same for a fired timer: consumed, and a stop decided exactly if no session lives |
| Deadman.LockIsGuarded | services/command/src/session.service.ts:80-100 | whenever a lock lives, some instance holds a timer due at least 1 s after its expiry, or is about to arm one |
| Deadman.LapseStops | services/command/src/session.service.ts:85-97 | 7 s after the last grant or heartbeat armed its timer (plus the timers' slack) a SAFE_STOP has been decided, for expiry and revocation, any instances, any interleaving |
| Deadman.RefusedStaysRefused | services/command/src/session.service.ts:166-170 | a granted token that once fails validation never validates again, under any interleaving of the lock operations |
| Deadman.RevokeSeversAnotherIff | services/command/src/assignment.service.ts:90-101 | over every run up to a revocation's read and every run between its read and its delete: the delete removes another operator's living session if and only if the last grant written in between went to another operator and still lives |
| Deadman.RevokeCanSeverSuccessor | services/command/src/assignment.service.ts:90-101 | a run in which such a grant is deleted |
| Deadman.GrantsCanReorder | services/command/src/session.service.ts:102-115 | a run in which the living session is older than one granted before |
| Fencing.HolderFencedIff | edge/sim/src/main.rs:1489-1502 | in every reachable state, every Redis operation its own step, a fresh envelope with the living session's stamp is refused INVALID_TOKEN if and only if an issue that overtakes that session has reached the vehicle: the later stamp of a grant written earlier, or a time taken with no lock living before the session was written and later than its stamp |
| Fencing.EarlierSessionFencedIff | services/command/src/command.controller.ts:344-363 | once a later token has reached the vehicle, a command checked under an earlier session passes the token gate if and only if its second read no longer saw that session and gave a time no older than the vehicle's token |
| Fencing.OwnStampIff | services/command/src/command.controller.ts:152-353 | whatever happens between a command's two reads of the lock, the second finds the session the first checked if and only if no grant was written in between and the session still lives |
| Fencing.HolderNeverFenced | services/command/src/session.service.ts:38-54 | in a run whose grants are written, commands published and stops signed in order, each checkable when it happens, the living session is the newest issue, the vehicle has seen nothing newer, and every command carries its own session's stamp |
| FencingRaces.ReorderedGrantsFenceHolder | services/command/src/session.service.ts:102-115 | a reachable state of cloud and vehicle in which two handovers were written against the order of their stamps and the living holder's E-STOP is refused INVALID_TOKEN |
| FencingRaces.ExpiredReadFencesHolder | services/command/src/session.service.ts:172-175 | a reachable state in which a lock expired between a command's two reads, the fallback time reached the vehicle, and the next holder's E-STOP is refused INVALID_TOKEN |
| FencingRaces.BorrowedStampPasses | services/command/src/command.controller.ts:344-363 | a reachable state in which a handover fell between a command's two reads and the old operator's E-STOP, under the successor's stamp, is obeyed |
| Fencing.StopEngagesIff | services/command/src/session.service.ts:117-164 | a fresh stop, the deadman's or an operator's, latches the vehicle and is acknowledged if and only if nothing newer has reached the vehicle, whatever the stop's age |
| Fencing.DeadmanStopIsNewest | services/command/src/session.service.ts:117-136 | a deadman stop is at least as new as everything sent before it and as the vehicle's newest token |
| Fencing.FencedForever | edge/sim/src/main.rs:1489-1502 | once the vehicle has seen a strictly later token, an envelope carrying an earlier one is refused now and after any further run of cloud and vehicle, and moves nothing but contact and the stored answer |
| Zone.GatesAgreeIff | services/command/src/zone.service.ts:63-75 | Gate 1's zone equals the vehicle's configured zone at every clock reading if and only if the document can carry the record's window |
| Zone.ZoneService.GetZone | services/command/src/zone.service.ts:63-75 | the effective zone of a vehicle's record |
| Zone.ZoneService.SetZone | services/command/src/zone.service.ts:83-88 | record, revision and document of a zone change; published revisions of a vehicle strictly increase |
| Zone.ZoneService.DeliverConfig | services/command/src/zone.service.ts:95-133 | the document delivered, and a revision used up even when the publish fails |
| Zone.HoldsGreatest | edge/sim/src/main.rs:1374-1390 | after any deliveries amid any other steps the vehicle holds its seed or the delivered config of greatest revision |
| Zone.SameDeliveriesSameZone | edge/sim/src/main.rs:1374-1390 | two vehicles that received the same published documents, in any orders and multiplicities, end in the same zone state |
| CommandGate.DispatchKeepsEvidence | services/command/src/command.controller.ts:376-433 | no envelope is published without an earlier evidence row under its id, on any path of the command controller |
| CommandGate.PublishesExactly | services/command/src/command.controller.ts:386-433 | a dispatch publishes its one envelope once on exactly the paths that took it, after its row, with a failure row exactly if none did and a degraded row exactly if one of two did |
| CommandGate.Mode2CapableIsMatrixColumn | services/command/src/command.controller.ts:304 | the hand-written list of Mode 2 zones is the matrix's Mode 2 column |
| CommandGate.CommandController.SendCommand | services/command/src/command.controller.ts:143-195 | which requests are refused and why, and the exact rows and publishes of the others |
| CommandGate.CommandController.TriggerEStop | services/command/src/command.controller.ts:198-210 | past the lock an E-STOP meets no filter and goes out on both paths |
| CommandGate.CommandController.ClearSafeStop | services/command/src/command.controller.ts:212-224 | the authorised latch release |
| CommandGate.CommandController.Dispatch | services/command/src/command.controller.ts:344-433 | envelope, row, publishes and failure rows, in order |
| CommandGate.CommandController.SetZone | services/command/src/command.controller.ts:272-339 | the permit gate's four refusals and its one success; every record stays authorised |
| CommandGate.VehicleAcceptsOnlyWhatGate1Does | services/command/src/command.controller.ts:166-192 | whatever a synchronised vehicle lets through to the actuators, Gate 1 would have let through |
| Gates.Gate1AcceptsIff | services/command/src/command.controller.ts:162-192 | exactly which payloads Gate 1 lets through under a record at a clock reading: latch commands always, driving in a permit zone in force, log pulls also outside the territory, everything else wherever the vehicle may operate |
| Gates.Gate1DrivesIff | services/command/src/command.controller.ts:162-175 | under an authorised record Gate 1 dispatches a driving payload exactly inside a named permit's window, and never to a vehicle without a record |
| Gates.DispatchedArrives | services/command/src/command.controller.ts:344-370 | an envelope dispatched at one instant is refused for age exactly if it is no stop and arrives over 2 s later, for its token exactly if its session's grant is older than the vehicle's newest token, and never for its addressee |
| CommandGate.Mode2OnlyInsidePermit | edge/sim/src/main.rs:238-262 | on a vehicle running on its record's document a driving payload reaches the actuators only inside the rectangle, in a permit zone, inside a named permit's window and, for CREEP, under its speed limit |
| CommandGate.DispatchedModeIsDerived | services/command/src/command.controller.ts:162-166 | a dispatched envelope carries the mode the vehicle derives, so a mode refusal means the zone forbids the mode |
| FleetServices.PreDepartureService.CreateChecklist | services/fleet/src/pre-departure.service.ts:24-56 | the fresh checklist and its row |
| FleetServices.PreDepartureService.UpdateItem | services/fleet/src/pre-departure.service.ts:58-107 | an operator's item result, the overall status, the row; or an error and no trace |
| FleetServices.PreDepartureService.Confirm | services/fleet/src/pre-departure.service.ts:109-152 | the confirmation and its row; or an error and no trace |
| FleetServices.MissionService.Create | services/fleet/src/mission.service.ts:18-42 | a mission only where none is open |
| FleetServices.MissionService.LinkChecklist | services/fleet/src/mission.service.ts:44-50 | the link, which writes no row |
| FleetServices.MissionService.Start | services/fleet/src/mission.service.ts:52-99 | a start only from PRE_CHECK on a confirmed, recent checklist |
| FleetServices.MissionService.Transition | services/fleet/src/mission.service.ts:128-151 | the guarded transition, its timestamps and its row |
| FleetServices.FleetController.CreateMission | services/fleet/src/fleet.controller.ts:99-124 | mission, checklist and link with clean-up after a failure at any point |
| FleetServices.FleetController.ConfirmChecklist | services/fleet/src/fleet.controller.ts:75-95 | a refused confirmation leaves exactly one REJECTED row |
| FleetServices.FleetController.UpdateCheckItem | services/fleet/src/fleet.controller.ts:54-73 | the item request and its refusals |
| FleetServices.FleetController.MissionOperation | services/fleet/src/fleet.controller.ts:191-210 | a refused transition leaves exactly one REJECTED row |
| FleetSafety.WorkflowIsSafe | services/fleet/src/mission.service.ts:18-152 | in every reachable state confirmed checklists are complete and clean, every started mission has its own vehicle's checklist confirmed at most 30 minutes before the start, and no vehicle has two open missions |
| FleetSafety.EvidenceIsPermanent | services/fleet/src/pre-departure.service.ts:58-152 | confirmed checklists and finished missions never change again, and rows are only appended |
| FleetSafety.VehicleResultsStand | services/fleet/src/pre-departure.service.ts:66-92 | in every reachable state each checklist has the prescribed items, no operator has overwritten a self-diagnosed one, and the overall status is the items' summary until confirmation |
| FleetReports.ReportsStand | services/fleet/src/pre-departure.service.ts:58-92 | after any run of requests each operator's item has the status of the last accepted report on it, or is open, and its last remark; the others are as the vehicle reported them |
| FleetReports.FailedReportBlocks | services/fleet/src/pre-departure.service.ts:119-127 | in every reachable state tires or lights last reported failed, or never settled, keep their checklist from being confirmed and its mission from having started |
| FleetReports.ConfirmsIffReported | services/fleet/src/pre-departure.service.ts:109-137 | a confirmation is accepted if and only if the checklist is on file and unconfirmed, every operator's item was settled and none last reported failed; it changes nothing else |
| FleetReports.ChecklistAsTold | services/fleet/src/pre-departure.service.ts:81-137 | in every reachable state a checklist's status, confirmer and time are told by the accepted requests alone |
| FleetReports.MissionsAsTold | services/fleet/src/mission.service.ts:18-152 | in every reachable state a mission is in the state of its last accepted operation, started at its accepted start and ended at its completion or abort |
| FleetReports.RowsNameTheActor | services/fleet/src/mission.service.ts:128-151 | every audit row a request adds names who asked, or the clean-up, and the vehicle of the entity it is about |
| FleetSafety.MovesAlongEdges | services/fleet/src/mission.service.ts:101-151 | a request moves at most the mission it names, along an edge of the life cycle |
| FleetAudit.TrailDeterminesState | services/fleet/src/pre-departure.service.ts:36-147 | replaying the rows gives each checklist's items and status exactly and each mission's status up to the link; refused attempts change nothing |
| FleetAudit.RowsHideLink | services/fleet/src/mission.service.ts:44-50 | a linked mission and one whose linking failed leave the very same rows |

## Left out

- Interleavings inside one kernel message or tick: the kernel releases its locks between a check and its effect, and claims about single steps would not survive arbitrary ones.
- Interleavings inside one cloud or fleet request, except for Redis operations (`Deadman`, `Fencing`) and evidence rows (`LogSync`); `missions.create` and `missions.start` check before their transactions and are taken as one step.
- Fencing.HolderFencedIff: takes the cloud clock as nondecreasing and common to all instances, and dispatches as token check, second read and publish; Gate 1's filters between the check and the second read are in `CommandGate`.
- Deadman.LapseStops: does not model an instance dying with its timers; the vehicle's own watchdog (`KernelLiveness.BoundedSilence`) is the guarantee that survives it.
- Deliveries of forged or foreign batches on the vehicle's own log topic: the topic's access rules are not modelled.
- Zone.SameDeliveriesSameZone: a restart of the zone service, which forgets its revision counters, is not modelled; revisions then rest on the clock alone.
- The numeric widths of Rust and JavaScript: times, sequence numbers and counters are unbounded, speeds and positions are reals.
- JSON numbers that are not integers, surrogate escapes, and the parser's recursion limit: the contract's signed documents do not need them.
- Whole documents with non-ASCII keys, beyond the counterexample and the order of two keys, and undefined array elements.
- Ed25519, base64, TLS, MQTT sessions and quality of service, Redis and Postgres themselves, schema validators: abstract relations, channels, a key with an expiry, row sequences.
- The parameters of actions no gate or actuator reads (horn, speaker, lights, restarts): their payloads are `Plain`. An acknowledgement is its command id and reason, of which the published text is a function.
- The Device Shadow envelope around a zone document and the report back to it.
- The text and telemetry fields of published messages, console output, round-trip measurement.
- The bridge's old reader thread overlapping a reconnect, its pose feed, CARLA and the mock vehicle.
- The NO_ACK watcher after a dispatch and the evidence rows of take-control, assign and handover: straight-line appends.
- The maneuver service in the cloud, telemetry writer, link monitor, ingest function, identity and role guards, health endpoints, console and infrastructure.
- The session check in front of fleet requests is a boolean: it reads the lock that `Session` models. Mission status PENDING is called AWAITING here, and route ids, labels and categories are not carried.

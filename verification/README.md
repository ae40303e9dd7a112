# Split-keyboard lighting replication and its host tools

The keyboard has two halves. The central half owns the declarative lighting
state; the peripheral half renders its own LEDs from a replica. A snapshot
crosses as a transaction of packets of at most 26 bytes over a link that drops
packets but never reorders them. The peripheral stages the packets, commits
atomically, hands the result to its engine through a one-place slot,
acknowledges, and attests with FNV-1a-32 digests (section 2 of
draft-eastlake-fnv; the constants are those of
`crates/moergo-rmk/src/split_lighting.rs:1405`). On the host, a configuration
compiler lowers ordered lighting arms to the device's two tables and gives
named profiles stable slots, and a writer turns differences into short pages
and rewrites macros inside a shared space.

`dafny verify dfyconfig.toml` checks the whole project.

## Layout

| files | contents |
|---|---|
| `Prelude`, `Lighting` | result types, machine integers, filters and subsequences; board sizes and the lighting state |
| `Codec`, `CodecProofs` | the 23 packets as bytes, both ways |
| `Transaction`, `Staging` | the walk of one snapshot into a bounded queue; the stager |
| `Loss`, `LossSafety` | what a lossy transaction can become |
| `Digests`, `DigestProofs` | the digest loops and what they depend on |
| `Recovery`, `FramePage` | attestation recovery; remote frame pages |
| `Central`, `Pacing`, `Peripheral` | the two event loops, arm by arm |
| `System*`, `Convergence`, `ContextRuns`, `CleanRound`, `Scenarios` | both halves and the link, over whole runs, and runs that end badly |
| `Scenes`, `SceneTables` | validating and lowering of lighting arms; the tables and their effects on the wire |
| `Profiles`, `Macros`, `PagedWrites` | slot allocation, macro rewriting, paged keymap writes |

Objects the firmware updates in place are classes whose methods are tied to
functions on their state (`SnapshotStage`, `Sink`, `Fnv32`,
`AttestationRecovery`, `FramePageAssembly`, `CentralReplication`,
`PeripheralReplication`); the lemmas speak of those functions. In `System` the
two loops are steps of one transition system. A provenance beside the state
numbers transfers without bound and records where each cell's contents came
from; no step reads it.

## Assumptions

- A board is any `BOARD` with `0 < LEDS_PER_HALF <= 63`, overlay capacity at
  least `LEDS_PER_HALF`, scene and layer capacities at most 255. The split
  message limit is at least 26 bytes.
- RMK's overlay batch, scene table and conditional table are bounded lists, the
  scene table unique on (layer, slot); the replica slot refuses a put while it
  is full; channels are bounded FIFOs; extension parameters are seen through
  `values()`; the default lighting context is some fixed value.
- The link keeps order and may lose anything. Every change of the central
  engine's declared state posts a lighting event that is not lost. A reboot of
  the peripheral comes with a link edge at the central.
- Generations are one byte. `System.Windowed` is the bound under which that is
  enough: the open stage and the acknowledgements in flight are less than 256
  transfers old. One transfer more is too many: `Scenarios.WindowIsTight` gives
  a run, for every snapshot the codec carries, in which one acknowledgement
  exactly 256 transfers old leaves the central quiescent over a peripheral that
  holds nothing.
- Time is a clock that never goes back.
- RMK's frame page at an offset holds the cells from there on, at most
  `FRAME_CHUNK_SIZE` of them. The range and unit of a scene's timing options are
  those of the configuration's own checks.

## What the proofs bring to light

- A right-half conditional cell's `layers`, `indicators`, `maintenance` and
  `split_transport` gates neither cross the wire nor enter the digest
  (`Loss.ReplicaIsRightHalf`, `DigestProofs.CanonicalConditional`).
- Losing a `ConditionalSceneExt` packet, or the whole conditional section, does
  not stop the commit; every other loss does. The cells whose own packet was
  lost, and only those, lack their connection and effects gates
  (`LossSafety.LossSafety`).
- The digests of a replica match the sender's exactly when the sender states
  its extension layers; otherwise the settings digests differ in parity
  (`DigestProofs.DigestAgreement`). So the attestation of a snapshot without
  extension layers never matches (`Convergence.QuiescentAttestation`).
- A wake-layers packet of the wrong length reports an unknown tag, since the
  list of known tags leaves it out; no other tag does so
  (`CodecProofs.UnknownTagExactly`, `CodecProofs.CutShort`).
- `Halt` and `Recover` only mark the link diverged: no step produces the halted
  health that the send guard looks for (`Central.AlwaysSound`), and recovery
  schedules no snapshot of its own (`Central.AttestationOnlyMarks`), although
  the comment on the recovery state says it does.
- A committed snapshot's context and batteries take effect even when the slot
  is full and the snapshot itself is dropped (`Scenarios.CommitWithoutHandOff`);
  a run leads there from any two snapshots (`Scenarios.DroppedButInEffect`).
- The comment on layer entries says that the last entry covering a key decides
  its lighting. An earlier entry's conditional arm that holds still outranks a
  later entry's unconditional color (`Scenes.LastEntryDecides`,
  `Scenes.LaterColorIsShadowed`). `Scenes.DocumentedReading` says from the gates
  and looks of a file, and what is known of the gates, whether its layers read
  as documented.

- A page of a remote frame is read exactly when the page size is a multiple of
  four or less than four, or the frame ends within the page: each answer offers
  four cells as long as the frame has them, while the reader wants the last one
  cut at the end of its page (`FramePages.FrameReads`).
- A conditional cell may carry a timing option its effect does not use; it is
  accepted, and lost on the wire. A scene cell may not, and reads back as
  written (`SceneTables.ConditionalStyleExactly`, `SceneTables.ValidStyleExactly`).

## Model

| member | source | states |
|---|---|---|
| CodecProofs.CodecRoundTrip | crates/moergo-rmk/src/split_lighting.rs:470-920 | decoding an encoded message gives it back exactly when every field fits its bits and sentinels, for all 23 variants |
| CodecProofs.CodecCarries | crates/moergo-rmk/src/split_lighting.rs:923-1380 | a message arrives, less the gates its packet has no room for, exactly when it is carriable |
| CodecProofs.CodecKeepsHeader | crates/moergo-rmk/src/split_lighting.rs:923-1380 | whatever a transaction packet decodes to keeps its kind, generation and revision |
| CodecProofs.DecodedIsRepresentable | crates/moergo-rmk/src/split_lighting.rs:923-1380 | arbitrary bytes decode only to messages whose encoding decodes to them again |
| CodecProofs.UnknownTagExactly | crates/moergo-rmk/src/split_lighting.rs:923-1380 | an unknown tag is reported exactly for a tag outside the 23 or a wake-layers packet of the wrong length |
| CodecProofs.CutShort | crates/moergo-rmk/src/split_lighting.rs:923-1380 | an example of that: of all packets cut to three bytes only wake-layers reports it |
| CodecProofs.SlotWithKindRoundTrip | crates/moergo-rmk/src/split_lighting.rs:706-712 | slot and effect kind come apart again although they share bytes with each other and the layer gate |
| CodecProofs.ConditionalOnWire | crates/moergo-rmk/src/split_lighting.rs:683-740 | a conditional cell with a wire slot crosses exactly when effect, layer gate and battery gate avoid the sentinels |
| CodecProofs.GatesRoundTrip | crates/moergo-rmk/src/split_lighting.rs:741-775 | transport, BLE state and effects gates packed in one byte are recovered |
| CodecProofs.BatteryRoundTrip | crates/moergo-rmk/src/split_lighting.rs:2182-2224 | a battery status crosses exactly when its level is at most 100 |
| Staging.SnapshotStage.Apply | crates/moergo-rmk/src/split_lighting.rs:1874-2148 | one message updates the stage and yields an output as the step function says |
| Staging.SnapshotStage.Reset | crates/moergo-rmk/src/split_lighting.rs:2151-2153 | a reset leaves no stage |
| Staging.AnyRunWellStaged | crates/moergo-rmk/src/split_lighting.rs:1874-2148 | over any message sequence the stage never exceeds the announced counts and never holds a key twice |
| Staging.SurvivesExactly | crates/moergo-rmk/src/split_lighting.rs:1874-2148 | a stage survives exactly a message outside transactions, any Begin, or one of its own transaction whose place is announced, free and within the tables |
| Staging.BeginsExactly | crates/moergo-rmk/src/split_lighting.rs:1874-1905 | a Begin within the tables starts an empty stage, one that announces too much changes nothing, and without a stage nothing else has any effect |
| Staging.CommitsExactly | crates/moergo-rmk/src/split_lighting.rs:2110-2148 | a snapshot comes out exactly for a Commit of the stage's transaction with every section received and every count as announced |
| Staging.StageIsPure | crates/moergo-rmk/src/split_lighting.rs:1874-2148 | a live stage is what the messages since its Begin say, all of them of its own transaction |
| Staging.TransactionPurity | crates/moergo-rmk/src/split_lighting.rs:1874-2148 | a snapshot comes out only at a Commit and is built only from messages of one generation and revision since the latest accepted Begin |
| Transaction.PacketCount | crates/moergo-rmk/src/split_lighting.rs:1650-1782 | a walk has 7 packets plus one per right-half cell plus one per late gate, bounded by 7 + LEDS_PER_HALF + 3 * SCENE_CAPACITY |
| Transaction.TablesInRange | crates/moergo-rmk/src/split_lighting.rs:1650-1672 | a snapshot with one overlay cell a slot and no more cells than its tables hold has its counts in range, so only want of room refuses it |
| Transaction.WalkSnapshot | crates/moergo-rmk/src/split_lighting.rs:1678-1782 | the walk hands over its packets in order, all of them or as many as the sink takes |
| Transaction.TryQueueSnapshot | crates/moergo-rmk/src/split_lighting.rs:1795-1823 | the queue gets the whole walk or stays as it was, and gets it exactly when counts are in range and there is room |
| Transaction.QueueIntoDrained | crates/moergo-rmk/src/split_lighting.rs:1795-1823 | a drained queue of the bound's size takes every in-range snapshot |
| Loss.ReplicaIsRightHalf | crates/moergo-rmk/src/split_lighting.rs:1182-1187 | the replica is the whole right-half projection exactly when no right-half cell uses an uncarried gate |
| Loss.LossyDecode | crates/moergo-rmk/src/split_lighting.rs:923-1380 | losing packets on the wire is losing messages of the walk, in order |
| LossSafety.LossSafety | crates/moergo-rmk/src/split_lighting.rs:1678-2148 | for every subsequence of a transaction: a snapshot comes out exactly when only late gates, or exactly the conditional section, were lost; it is complete but for that, and cell by cell late gates are missing exactly where that cell's own packet is |
| LossSafety.LossSafetyOnTheWire | crates/moergo-rmk/src/split_lighting.rs:1678-2148 | the same with the codec, for any dropped packets and the same earlier stages |
| LossSafety.LosslessRefinement | crates/moergo-rmk/src/split_lighting.rs:1678-2148 | the bytes of a whole walk yield nothing until the Commit and then exactly the replica, from any earlier stage |
| LossSafety.LosslessRightHalf | crates/moergo-rmk/src/split_lighting.rs:1678-2148 | that output is the right-half projection exactly when no uncarried gate is used |
| Digesting.Fnv32.Byte | crates/moergo-rmk/src/split_lighting.rs:1415-1418 | the running hash is the hash of the bytes fed so far |
| Digesting.HashSettings | crates/moergo-rmk/src/split_lighting.rs:1532-1641 | the settings digest hashes the settings stream in domain 1, which `DigestProofs.CanonicalSettings` characterises |
| Digesting.HashOverlay | crates/moergo-rmk/src/split_lighting.rs:1532-1641 | the slot-order overlay loop hashes the overlay stream |
| Digesting.HashScenes | crates/moergo-rmk/src/split_lighting.rs:1532-1641 | the layer-and-slot-order scene loop hashes the scene stream |
| Digesting.HashConditionalScenes | crates/moergo-rmk/src/split_lighting.rs:1532-1641 | the conditional loop hashes the ordered right-half list |
| Digesting.ComputeDigests | crates/moergo-rmk/src/split_lighting.rs:1532-1641 | the four digests together |
| DigestProofs.CanonicalOverlay | crates/moergo-rmk/src/split_lighting.rs:1532-1641 | two overlays feed the hash alike exactly when their right-half maps from slot to effect are equal, whatever their order, lifetimes or left half |
| DigestProofs.CanonicalScenes | crates/moergo-rmk/src/split_lighting.rs:1532-1641 | the same for scenes by layer and slot |
| DigestProofs.CanonicalConditional | crates/moergo-rmk/src/split_lighting.rs:1467-1641 | two conditional tables feed the hash alike exactly when their ordered right-half lists agree in the carried gates |
| DigestProofs.CanonicalSettings | crates/moergo-rmk/src/split_lighting.rs:1532-1641 | two snapshots feed the settings hash alike exactly when output switch and brightness, every background field, output mode, scene policy, extension, extension layers and both parameter blocks agree |
| DigestProofs.FnvByStep | crates/moergo-rmk/src/split_lighting.rs:1405-1418 | the hash starts at 2166136261, and each byte changes the low byte by exclusive or before the whole is multiplied by 16777619 modulo 2^32 |
| DigestProofs.DigestsOf | crates/moergo-rmk/src/split_lighting.rs:1532-1641 | the digests are named after the snapshot's revision; each hashes schema, its own domain number and its own stream |
| DigestProofs.FnvParity | crates/moergo-rmk/src/split_lighting.rs:1405-1418 | the parity of an FNV-1a hash is one plus the sum of its input |
| DigestProofs.ReplicaSettingsDigest | crates/moergo-rmk/src/split_lighting.rs:1532-1641 | the 32-bit settings digest survives replication exactly when the sender states its extension layers |
| DigestProofs.DigestAgreement | crates/moergo-rmk/src/split_lighting.rs:1532-1641 | the replica's digests are the sender's, whatever context the receiver adds, exactly when the sender states its extension layers |
| DigestProofs.DigestsSeen | crates/moergo-rmk/src/split_lighting.rs:1532-1641 | for a replica that lost gates or its conditional table: exactly when besides that the conditional digests match |
| Recovery.AttestationRecovery.Observe | crates/moergo-rmk/src/split_lighting.rs:435-463 | one attestation moves the recovery state and decides as the step function says |
| Recovery.AttestationRecovery.SnapshotAcked | crates/moergo-rmk/src/split_lighting.rs:431-433 | an acknowledgement arms recovery exactly at its target |
| Recovery.StateOverRuns | crates/moergo-rmk/src/split_lighting.rs:408-463 | over every run the count is 1 plus the halts since the target last changed, at most 255, and arming is read off the history |
| Recovery.TargetOrigin | crates/moergo-rmk/src/split_lighting.rs:408-463 | a target goes back to a mismatch that answered Recover, with only acknowledgements and its own mismatches since |
| Recovery.HaltExactly | crates/moergo-rmk/src/split_lighting.rs:435-463 | a mismatch halts exactly when its revision is the target and was acknowledged since the latest mismatch |
| Recovery.HaltNeedsRecoveryAndAck | crates/moergo-rmk/src/split_lighting.rs:435-463 | every halt is preceded by a recovering mismatch and then the acknowledgement of its revision |
| Recovery.FirstRoundStays | crates/moergo-rmk/src/split_lighting.rs:435-463 | without acknowledgements the count never passes 1 |
| FramePages.FramePageAssembly.Accept | crates/moergo-rmk/src/split_lighting.rs:346-380 | one chunk updates the page and decides as the step function says, whose decisions `FramePages.TakenExactly` characterises |
| FramePages.AcceptedRun | crates/moergo-rmk/src/split_lighting.rs:346-380 | after any accepted run the page holds the concatenation of contiguous chunks of one revision and total |
| FramePages.AcceptedGrows | crates/moergo-rmk/src/split_lighting.rs:346-380 | every acceptance makes the page strictly longer |
| FramePages.CompleteExactly | crates/moergo-rmk/src/split_lighting.rs:346-380 | completion happens exactly at the page size or the rest of the frame, nothing past its end |
| FramePages.TakenExactly | crates/moergo-rmk/src/split_lighting.rs:346-380 | after any accepted run a chunk is taken exactly when it continues the page, agrees with the earlier chunks and holds the least of four cells, the rest of the frame and the rest of the page; torn exactly when it disagrees |
| FramePages.ReadAttempt | crates/moergo-rmk/src/central_lighting.rs:433-455 | one pass over a page ends, by the reply after an accepted run: a completing one, a torn one, or none or an invalid one |
| FramePages.ReadPage | crates/moergo-rmk/src/central_lighting.rs:433-455 | the outcome is what the first pass decides, nothing when it is torn and late, else what the second decides |
| FramePages.CompletePageIsWhole | crates/moergo-rmk/src/central_lighting.rs:433-455 | a returned page is never torn and has its full length |
| FramePages.FrameReads | crates/moergo-rmk/src/central_lighting.rs:433-455 | when every request is answered from one frame, the read returns that page of it exactly when the chunks fit the page, and fails otherwise |
| FramePages.TornExactly | crates/moergo-rmk/src/split_lighting.rs:346-380 | a pass is torn exactly by a chunk that continues the page with another revision or total than some chunk before it |
| Central.CentralReplication.QueuePreparedSnapshot | crates/moergo-rmk/src/central_lighting.rs:569-590 | queues the whole walk or nothing; the generation moves either way |
| Central.CentralReplication.QueuePreparedContextUpdate | crates/moergo-rmk/src/central_lighting.rs:599-635 | queues a delta exactly over the acknowledged revision, a full snapshot otherwise |
| Central.CentralReplication.SendIfDirty | crates/moergo-rmk/src/central_lighting.rs:675-698 | with the link up, nothing outstanding, something dirty and no back-off: one update over the acknowledged revision or else a whole walk, if the queue takes it; otherwise nothing |
| Central.CentralReplication.OnLink | crates/moergo-rmk/src/central_lighting.rs:749-766 | a link edge as the loop handles it |
| Central.CentralReplication.OnPacket | crates/moergo-rmk/src/central_lighting.rs:786-846 | acknowledgements of the outstanding transfer and attestations; anything else changes nothing |
| Central.CentralReplication.OnTimer | crates/moergo-rmk/src/central_lighting.rs:858-874 | only an elapsed acknowledgement deadline acts |
| Central.SendsExactly | crates/moergo-rmk/src/central_lighting.rs:671-698 | an accepted offer leaves a transfer of the exported revision outstanding, and nothing dirty, exactly when the link is up, full or context is dirty and any back-off is over; full exactly when full was dirty or the revision is not the acknowledged one |
| Central.RefusalKeepsDirty | crates/moergo-rmk/src/central_lighting.rs:671-698 | a refused or unexported offer leaves everything dirty and waits 50 ms |
| Central.ContextEventSends | crates/moergo-rmk/src/central_lighting.rs:671-784 | a context event on an idle, acknowledged link ends in exactly one update, then nothing is dirty |
| Central.LinkEdgeSends | crates/moergo-rmk/src/central_lighting.rs:671-766 | after a link edge up the next offer is a full snapshot at once, after one down there is none |
| Central.AckSettles | crates/moergo-rmk/src/central_lighting.rs:786-802 | only the outstanding transfer's acknowledgement settles it, and only a full one moves the acknowledged revision |
| Central.HealthOverRuns | crates/moergo-rmk/src/central_lighting.rs:639-874 | in every run the reported health is what the latest event that bears on it says: answered or matching, disagreeing, incomparable or failed five times, or to be sent |
| Central.NextKeepsSound | crates/moergo-rmk/src/central_lighting.rs:671-874 | every arm keeps the loop's invariant |
| Central.AlwaysSound | crates/moergo-rmk/src/central_lighting.rs:639-874 | in every run an outstanding delta is for the acknowledged revision, nothing pends on a dead link, and health is never halted |
| Central.RecoveryFollows | crates/moergo-rmk/src/central_lighting.rs:749-824 | in every run the loop drives recovery with link edges and lighting events as restarts, taken full acknowledgements and attestations, and nothing else |
| Central.HaltInsideTheLoop | crates/moergo-rmk/src/central_lighting.rs:803-824 | so an attestation is a halt exactly on an acknowledged, still mismatched target |
| Central.AttestationOnlyMarks | crates/moergo-rmk/src/central_lighting.rs:803-824 | an attestation changes nothing about what is sent or when; it marks the link diverged exactly on a mismatch of the expected revision |
| Pacing.RetryPacing | crates/moergo-rmk/src/central_lighting.rs:535-545 | while unanswered, transfers are at least 500 ms apart, and at least 20500 ms from the fifth failure on, in every timed run |
| Pacing.RetriesInTime | crates/moergo-rmk/src/central_lighting.rs:671-874 | and no later than that: a timed-out transfer is offered again at once before the fifth failure, and after exactly 20000 ms from then on |
| Pacing.RefusalBacksOff | crates/moergo-rmk/src/central_lighting.rs:671-697 | after a refused offer none is made for 50 ms, whatever happens short of a link edge |
| Pacing.SettlingRestarts | crates/moergo-rmk/src/central_lighting.rs:749-802 | a link edge or acknowledgement starts the count again |
| Peripheral.PeripheralReplication.Process | crates/moergo-rmk/src/lighting.rs:1110-1181 | one packet moves the half and its answer queue as the step function says, which `ContextRuns.CommitContext` and `ContextRuns.UpdateContext` state by fields |
| Peripheral.PeripheralReplication.TrySendDiagnostic | crates/moergo-rmk/src/lighting.rs:924-934 | diagnostics enter only an empty queue |
| Peripheral.PeripheralReplication.FinishApply | crates/moergo-rmk/src/lighting.rs:999-1031 | an accepted snapshot is recorded and acknowledged, and attested only behind its acknowledgement |
| Peripheral.PeripheralReplication.TakeRequest | crates/moergo-rmk/src/lighting.rs:1083-1096 | the worker takes the signalled request |
| SystemSteps.QueueKeeps | crates/moergo-rmk/src/central_lighting.rs:569-635 | queueing, accepted or refused, keeps the system invariant |
| SystemSteps.HeedKeeps | crates/moergo-rmk/src/central_lighting.rs:786-823 | so does reading a reply inside the window |
| SystemSteps.AckIsCurrent | crates/moergo-rmk/src/central_lighting.rs:788-794 | inside the window a matching byte generation is the outstanding transfer's |
| SystemDelivery.FullArrives | crates/moergo-rmk/src/split_lighting.rs:1678-1782 | whatever a full transfer's bytes decode to stays in its transaction, and only the last packet commits |
| SystemDelivery.OlderStage | crates/moergo-rmk/src/split_lighting.rs:1874-2148 | inside the window a stage of an older transfer cannot take this one's packets |
| SystemDelivery.OutputIsFaithful | crates/moergo-rmk/src/lighting.rs:1164-1180 | a committed snapshot is what the stager makes of packets of its own transfer, as they decode |
| SystemInvariant.PortableHeld | crates/moergo-rmk/src/lighting.rs:1164-1180 | so for a transfer the codec carries it is the replica, up to late gates or the conditional table |
| SystemDelivery.DeliverKeeps | crates/moergo-rmk/src/lighting.rs:1110-1181 | delivering any packet keeps the system invariant |
| SystemWorker.EngineKeeps | crates/moergo-rmk/src/lighting.rs:999-1005 | the engine's answer keeps the system invariant |
| SystemWorker.FinishKeeps | crates/moergo-rmk/src/lighting.rs:1004-1031 | the worker's report keeps the system invariant |
| SystemWorker.RebootKeeps | crates/moergo-rmk/src/lighting.rs:105-126 | so does losing every cell of the peripheral |
| Convergence.AlwaysInvariant | crates/moergo-rmk/src/central_lighting.rs:639-874 | the invariant holds in every state of every run |
| Convergence.QuiescentConvergence | crates/moergo-rmk/src/central_lighting.rs:639-874 | with nothing dirty, outstanding or unread: declared, acknowledged and applied revision agree; the engine holds what the stager made of some packets of the latest full snapshot, which is the declared one, and context and batteries came with the latest transfer; for transfers the codec carries, that is the replica and what was sent |
| Convergence.QuiescentAttestation | crates/moergo-rmk/src/central_lighting.rs:803-824 | then an attestation of a transfer the codec carries matches exactly when extension layers were stated and the conditional digests agree, as they do when that table is whole |
| Convergence.AcksTellTheTruth | crates/moergo-rmk/src/lighting.rs:999-1031 | requests describe the slot until it is taken; acknowledgements, applied revision and digests name applied snapshots; refused ones are never acknowledged |
| ContextRuns.OwnLayersStay | crates/moergo-rmk/src/lighting.rs:753-756 | no packet touches the half's own layers |
| ContextRuns.CommitContext | crates/moergo-rmk/src/lighting.rs:1164-1180 | a commit takes the staged context but for the half's own layers and connection, and a free slot gets the snapshot with that context and its digests |
| ContextRuns.UpdateContext | crates/moergo-rmk/src/lighting.rs:1142-1162 | an update is taken and answered exactly over the applied revision, and replaces indicators, power, bonded slots and batteries only |
| ContextRuns.LayersOverRuns | crates/moergo-rmk/src/lighting.rs:753-787 | in every run of both halves the layers are those of the latest layer edge since the latest reboot |
| ContextRuns.QuiescentContext | crates/moergo-rmk/src/central_lighting.rs:639-874 | with nothing dirty, outstanding or unannounced, the peripheral's replicated context is the central's present one, for transfers the codec carries |
| Scenarios.WindowIsTight | crates/moergo-rmk/src/central_lighting.rs:569-802 | a run from the start, one acknowledgement 256 transfers old: reading it makes the central quiescent and healthy although the rebooted peripheral has applied nothing |
| Scenarios.CommitWithoutHandOff | crates/moergo-rmk/src/lighting.rs:1164-1180 | a commit always adopts context and batteries, and leaves slot and request as they were exactly when the slot was full |
| Scenarios.DroppedButInEffect | crates/moergo-rmk/src/lighting.rs:1164-1180 | a run after which the second snapshot is dropped for the first, its context and batteries in effect |
| CleanRound.CleanTransfer | crates/moergo-rmk/src/lighting.rs:1110-1181 | all packets of a transfer leave exactly the replica in a free slot, with the request describing it |
| CleanRound.CleanRoundConverges | crates/moergo-rmk/src/central_lighting.rs:671-802 | an undisturbed exchange ends healthy with the engine holding the replica |
| CleanRound.CleanDelta | crates/moergo-rmk/src/central_lighting.rs:599-802 | an undisturbed update is one packet, after which context and batteries are the central's and the loop is healthy with nothing dirty |
| Scenes.Validate | crates/moergo-config/src/config.rs:716-742 | passes exactly the well-formed entries, and reports the first fault in the order of the checks |
| Scenes.ValidExactly | crates/moergo-config/src/config.rs:716-742 | by fields: a light binds no action, something is named, an entry without a color is solid with no timing option, and every arm that another follows names a condition; which fault each failure is |
| Scenes.LayerLowersExactly | crates/moergo-config/src/config.rs:520-594 | a layer lowers exactly when all its keys and lights are well-formed, resolve and parse |
| Scenes.HoldsExactly | crates/moergo-config/src/config.rs:520-594 | a lowered conditional cell holds exactly where its layer is as active as asked and every gate it names holds |
| Scenes.MatchIsHoldingOrFinal | crates/moergo-config/src/config.rs:716-742 | with an unconditional arm only last, first match is the first holding conditional arm, else that arm |
| Scenes.PushRules | crates/moergo-config/src/config.rs:555-590 | the arms of an entry are appended last to first, and fail exactly on a color that does not parse |
| Scenes.LayerScenes | crates/moergo-config/src/config.rs:520-594 | a layer contributes its entries' cells in order, and fails exactly when an entry does not lower |
| Scenes.LoweredConditionalsShow | crates/moergo-config/src/config.rs:546-552 | in the reversed cells the last match is the first holding arm |
| Scenes.LayerConditionalsShow | crates/moergo-config/src/config.rs:520-594 | a layer's cells show the first holding arm of its last entry that has one |
| Scenes.LayerScenesShow | crates/moergo-config/src/config.rs:520-594 | a layer's scene cells show its last unconditional arm |
| Scenes.LastEntryDecides | crates/moergo-config/src/config.rs:611-613 | a layer shows what its last entry asks for unless an earlier conditional arm shadows it; then that arm shows, as promised exactly when its color and style are the deciding entry's |
| Scenes.DocumentedReading | crates/moergo-config/src/config.rs:611-613 | given which gates imply and which exclude others: a layer reads as documented in every possible environment exactly when each arm before the deciding entry can never hold, looks like that entry's color, or is outranked by an arm whose gates follow from its own |
| Scenes.ColorsFirstRead | crates/moergo-config/src/config.rs:611-613 | so it does where no entry with an unconditional arm follows one with a conditional arm |
| Scenes.LaterColorIsShadowed | crates/moergo-config/src/config.rs:611-613 | a two-entry layer in which it does |
| SceneTables.FindDuplicate | crates/moergo-config/src/config.rs:3008-3017 | on a sorted table the neighbour check finds a repeated key exactly when there is one |
| SceneTables.MergeScenes | crates/moergo-config/src/config.rs:3002-3024 | fails exactly on an invalid cell or a repeated standalone key; the merge is sorted, unique, and shows layer cells over standalone ones |
| SceneTables.BuildTables | crates/moergo-config/src/config.rs:2098-2119 | succeeds exactly when every layer lowers and the lighting section, missing only if nothing needs it, is valid; the tables are then a lowering of the configuration, and every cell crosses the wire |
| SceneTables.ValidStyleExactly | crates/moergo-config/src/config.rs:3835-4020 | a scene style is valid exactly when it crosses the wire in range and reads back as written, but for the default phase |
| SceneTables.ConditionalStyleExactly | crates/moergo-config/src/config.rs:3753-4020 | a valid conditional style crosses, and reads back as written exactly when it has no option its effect does not use |
| SceneTables.LoweringPreservesMeaning | crates/moergo-config/src/config.rs:520-594 | in every environment, for every layer and target, the lowered tables show what the configuration means |
| Profiles.RoomForImplicit | crates/moergo-config/src/config.rs:1900-1908 | with at most 255 profiles an implicit one always finds a slot |
| Profiles.SlotsDistinct | crates/moergo-config/src/config.rs:1873-1915 | slots are below 255, distinct, explicit ones kept, implicit ones the lowest free in name order |
| Profiles.CheckExplicit | crates/moergo-config/src/config.rs:1875-1894 | the first pass marks exactly the explicit indices and fails exactly on bad names or indices |
| Profiles.Resolve | crates/moergo-config/src/config.rs:1873-1915 | succeeds exactly on the resolvable tables, with the assignment's entries in slot order |
| Profiles.WireFields | crates/moergo-config/src/config.rs:2469-2498 | settings are refused exactly when both hand rules are on or the mode is unknown, and cross field by field otherwise |
| Profiles.EntryFields | crates/moergo-config/src/config.rs:1873-1915 | each resolved entry has the name, hand rules, mode and other fields of one profile, and its explicit index if it has one |
| Profiles.ProfileNamesBySlot | crates/moergo-config/src/config.rs:1918-1927 | the names reach to the last slot and hold each slot's name |
| Profiles.NamesInvert | crates/moergo-config/src/config.rs:1918-1927 | a slot's name is the profile that has it, empty exactly when none does |
| Profiles.FromSnapshot | crates/moergo-config/src/config.rs:2418-2436 | the entries written back with explicit indices |
| Profiles.ProfilesRoundTrip | crates/moergo-config/src/config.rs:2418-2436 | resolving what was written back gives the same entries, in whatever order the table is iterated |
| Macros.PrefixBound | crates/moergo-control/src/config.rs:998-999 | prefix sums of an ascending sequence never exceed zero or the total |
| Macros.SizeExactly | crates/moergo-config/src/config.rs:2842-2848 | framing takes one byte up to 127 bytes and two from 128, so a longer macro occupies more |
| Macros.NeverAboveBoth | crates/moergo-control/src/config.rs:986-1010 | along the plan no stored total exceeds both the old and the new one |
| Macros.Plan | crates/moergo-control/src/config.rs:986-999 | one step per slot, ascending by growth |
| Macros.WriteMacroSpace | crates/moergo-control/src/config.rs:968-1013 | succeeds exactly when the store is writable, has the slots and the space, and every macro can be encoded; then the slots hold what is wanted and no write on the way is refused |
| Macros.AdmittedExactly | crates/moergo-control/src/config.rs:968-990 | what is admitted, by the total of the padded slots, and what each refusal means |
| Macros.GrowingFirstOverflows | crates/moergo-control/src/config.rs:998-999 | an example of why the order matters: the same macros written growing first overflow |
| PagedWrites.ChangedRuns | crates/moergo-control/src/config.rs:1136-1157 | maximal runs covering exactly the differing cells, or the whole layer when its contents are unknown |
| PagedWrites.PagesExact | crates/moergo-control/src/config.rs:1160-1169 | pages are non-empty, increasing, disjoint, no longer than the batch, inside one run, and cover exactly the runs |
| PagedWrites.WritePage | crates/moergo-control/src/config.rs:1238-1270 | one page, in bulk or cell by cell, or part of it when the link fails |
| PagedWrites.WriteLayer | crates/moergo-control/src/config.rs:1285-1317 | turns what the keyboard held into what is wanted in ordered pages of at most the batch, covering and counting exactly the cells that differ |

## Left out

- Codec.Encode: models the finished packet; the buffer it is filled in field by field is not part of this model.
- Bit operations of the codec are written as the arithmetic they stand for on single bytes; wider integers are split into base-256 digits, and the exclusive or of the digests goes bit by bit.
- RemoteFrameBridge::chunk: its timeouts, request ids and second try are collapsed to one answer or none per request.
- Probe, status and frame requests and their answers: diagnostics no step of the two-half system depends on; `Peripheral.PeripheralReplication.Process` covers their effect on one half.
- `set_machine`, status recording and lighting control commands: reporting without protocol state.
- PeripheralState::set_effective_layer: the layer bitmap it adjusts is left arbitrary; replication never reads it.
- The bootloader packet, key-hit effects and heartbeat timing of the peripheral; a heartbeat may happen at any time.
- Liveness beyond one undisturbed exchange: nothing is claimed about how long convergence takes.
- Selectors and topologies: an entry's targets are given as what its selector resolves to; two selectors that name one LED are one target only if the resolution gives one.
- SceneTables.BuildTables: the gates' own well-formedness checks and the normal form of a color are not modelled.
- Scenes.DocumentedReading: what is known of gates is one implying or excluding another; that one of several must hold is not expressed.
- Wake layers, effect parameters and the other sections of the configuration snapshot.
- Macro encoding: a macro is the bytes it encodes to, so that equal operations are equal bytes.
- The packed form of morse profiles: the fields besides mode and hand rules cross unchanged.
- The pace of writing (persist barriers, retries while busy): a write is accepted or the link has failed.
- Hardware, RMK and Rynk internals, transports, command line and rendering.

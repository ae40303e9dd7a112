/** What every run of the whole system guarantees. */
module Convergence {
  import opened Prelude
  import opened Lighting
  import opened Codec
  import opened Transaction
  import opened Staging
  import opened Digesting
  import opened DigestProofs
  import opened Recovery
  import opened Loss
  import opened LossSafety
  import opened Central
  import opened Peripheral
  import opened System
  import opened SystemInvariant
  import opened SystemSteps
  import opened SystemDelivery
  import opened SystemWorker

  lemma NextKeeps(s: State, a: Action)
    requires Invariant(s) && Windowed(s) && Enabled(s, a)
    ensures Invariant(System.Next(s, a))
  {
    hide Invariant, Delivered, EngineStep, Reported, Attested, Queued, Heeded, Sent, LinkChanged, TimedOut, Refreshed,
      Woken, CountsInRange, LatestSent, LatestFull;
    match a
    case Refresh => RefreshKeeps(s);
    case Export(_) => ExportKeeps(s);
    case Queue(accepted, b) => QueueKeeps(s, accepted, b);
    case ReadLink(up) => LinkKeeps(s, up);
    case ReadLighting => EventKeeps(s);
    case ReadContext => EventKeeps(s);
    case ReadReply => HeedKeeps(s);
    case Elapse => ElapseKeeps(s);
    case Edit(declared) => SurroundingsKeep(s, declared, s.declared.context, s.declared.sampleTimeMs, s.now);
    case Adjust(context, at) => SurroundingsKeep(s, s.declared, context, at, s.now);
    case LinkEdge => SurroundingsKeep(s, s.declared, s.declared.context, s.declared.sampleTimeMs, s.now);
    case Tick(now) => SurroundingsKeep(s, s.declared, s.declared.context, s.declared.sampleTimeMs, now);
    case LoseOut(_) => LossKeeps(s);
    case LoseBack(_) => LossKeeps(s);
    case Deliver(connection, answered) => DeliverKeeps(s, connection, answered);
    case Wake => WakeKeeps(s);
    case EngineAnswer(accept, take) => EngineKeeps(s, accept, take);
    case Finish(acked, attested) => FinishKeeps(s, acked, attested);
    case Heartbeat => HeartbeatKeeps(s);
    case LayerEdge(layers) => OwnEventsKeep(s, layers);
    case PeripheralLink => OwnEventsKeep(s, s.peripheral.context.layers);
    case Reboot => RebootKeeps(s);
  }

  /** The invariant holds in every state every run can reach. */
  lemma {:induction false} AlwaysInvariant(start: Snapshot, actions: seq<Action>)
    requires Possible(start, actions)
    ensures Invariant(Exec(start, actions))
  {
    hide Invariant, Windowed, Enabled, System.Next;
    if actions == [] {
      StartHolds(start);
    } else {
      AlwaysInvariant(start, actions[..|actions| - 1]);
      NextKeeps(Exec(start, actions[..|actions| - 1]), actions[|actions| - 1]);
    }
  }

  // ---- Quiescent convergence ----

  /** The loop has nothing to do and has read everything posted to it. */
  predicate Quiescent(s: State) {
    && s.central.linkUp && s.central.awaiting.None? && !s.central.fullDirty
    && !s.lightingUnread && !s.linkUnread
  }

  /** The generation of the latest full snapshot, and its contents. */
  predicate Latest(s: State, g: nat) { g == LatestFull(s.trace.log) && FullAt(s.trace.log, g) }

  lemma QuiescentCentral(s: State)
    requires Invariant(s) && Quiescent(s)
    ensures var g := LatestFull(s.trace.log);
            && Latest(s, g) && SameDeclared(SnapshotAt(s.trace.log, g), s.declared)
            && s.central.lastAcked == Some(s.declared.revision)
            && s.central.expectedDigests == Some(ReplicaDigests(SnapshotAt(s.trace.log, g)))
            && s.peripheral.lastApplied.Some? && g <= s.trace.lastGen
    ensures var h := LatestSent(s.trace.log); Logged(s.trace.log, h) && h <= s.trace.contextGen
  {
    hide WireSide, FarSide, LatestFull, LatestSent, ReplicaDigests, SoundLog;
  }

  lemma EngineCommitted(p: PeripheralState, t: Provenance)
    requires EngineSide(p, t) && p.lastApplied.Some?
    ensures FullAt(t.log, t.engineGen) && t.lastGen <= t.engineGen <= t.contextGen
  {
    hide Faithful, ReplicaDigests, PacketsOf, LatestFull, LatestSent;
  }

  lemma ContextLogged(p: PeripheralState, t: Provenance)
    requires ContextSide(p, t) && t.contextGen > 0
    ensures Logged(t.log, t.contextGen) && t.contextGen <= t.rxGen
  {
    hide YieldsContext, Selected, PacketsOf, LatestFull, LatestSent;
  }

  /** Nothing later than the latest full snapshot can have been applied. */
  lemma QuiescentPeripheral(p: PeripheralState, t: Provenance)
    requires EngineSide(p, t) && ContextSide(p, t) && t.rxGen <= |t.log|
    requires p.lastApplied.Some? && LatestFull(t.log) <= t.lastGen && LatestSent(t.log) <= t.contextGen
    requires LatestFull(t.log) > 0 && LatestSent(t.log) > 0
    ensures t.lastGen == t.engineGen == LatestFull(t.log) && t.contextGen == LatestSent(t.log)
  {
    hide EngineSide, ContextSide, LatestFull, LatestSent, FullAt, Logged;
    EngineCommitted(p, t);
    ContextLogged(p, t);
    assert t.engineGen <= |t.log|;
    NothingLater(t.log, t.engineGen);
    NothingLater(t.log, t.contextGen);
  }

  lemma QuiescentEngine(p: PeripheralState, t: Provenance)
    requires EngineSide(p, t) && p.lastApplied.Some? && t.lastGen == t.engineGen
    ensures p.engine.Some? && Faithful(t.log, t.engineGen, p.engine.value)
    ensures p.lastApplied == Some(p.engine.value.revision) && p.lastDigests == Some(ReplicaDigests(p.engine.value))
  {
    hide ReplicaDigests, Faithful, CommittedBy;
  }

  lemma QuiescentFacts(s: State)
    requires Invariant(s) && Quiescent(s)
    ensures var g, t := LatestFull(s.trace.log), s.trace;
            && Latest(s, g) && SameDeclared(SnapshotAt(t.log, g), s.declared)
            && s.central.lastAcked == Some(s.declared.revision)
            && s.central.expectedDigests == Some(ReplicaDigests(SnapshotAt(t.log, g)))
            && s.peripheral.engine.Some? && Faithful(t.log, g, s.peripheral.engine.value)
            && s.peripheral.lastApplied == Some(s.peripheral.engine.value.revision)
            && s.peripheral.lastDigests == Some(ReplicaDigests(s.peripheral.engine.value))
            && g in t.applied && t.applied[g] == s.peripheral.engine.value
            && t.contextGen == LatestSent(t.log) > 0
  {
    QuiescentCentral(s);
    var p, t := s.peripheral, s.trace;
    assert EngineSide(p, t) && ContextSide(p, t) && t.rxGen <= |t.log| by { hide EngineSide, ContextSide; }
    assert LatestFull(t.log) > 0 && LatestSent(t.log) > 0 by { hide LatestFull, LatestSent; }
    QuiescentPeripheral(p, t);
    QuiescentEngine(p, t);
    hide LatestFull, LatestSent, ReplicaDigests, Faithful, CommittedBy, SameDeclared;
  }

  /** The last transfer of any kind brought context and batteries. */
  lemma ConvergedContext(s: State)
    requires Invariant(s) && s.trace.contextGen == LatestSent(s.trace.log) > 0
    ensures CameWith(s.trace.log, LatestSent(s.trace.log), Replicated(s.peripheral.context), s.peripheral.batteries)
  {
    hide CentralSide, WireSide, BeliefSide, StageSide, SlotSide, EngineSide, BackSide, LatestSent, CameWith;
  }

  /** What the peripheral holds, for transfers the codec carries. */
  lemma ConvergedPortable(log: Log, g: nat, h: nat, p: PeripheralState)
    requires p.engine.Some? && Faithful(log, g, p.engine.value)
    requires CameWith(log, h, Replicated(p.context), p.batteries)
    ensures Portable(log, g) ==> FaithfulTo(p.engine.value, SnapshotAt(log, g))
    ensures Portable(log, h) ==> Replicated(p.context) == ContextAt(log, h) && p.batteries == BatteriesAt(log, h)
  {
    if Portable(log, g) { PortableHeld(log, g, p.engine.value); }
    if Portable(log, h) { PortableContext(log, h, Replicated(p.context), p.batteries); }
    hide Faithful, CameWith, Portable, FaithfulTo;
  }

  /** Quiescent convergence, over every run of both halves and a lossy link.
      Once the central has nothing dirty, nothing outstanding and nothing
      unread, its declared revision, the revision it saw acknowledged and the
      one the peripheral applied are the same. The peripheral's engine holds
      what the stager made of packets of the latest full snapshot, which is the
      declared one; its context and batteries came with the latest transfer. */
  lemma QuiescentConvergence(start: Snapshot, actions: seq<Action>)
    requires Possible(start, actions) && Quiescent(Exec(start, actions))
    ensures Converged(Exec(start, actions))
  {
    AlwaysInvariant(start, actions);
    hide Exec, Possible, Quiescent, Invariant, Converged;
    StateConverges(Exec(start, actions));
  }

  /** For transfers the codec carries that is the replica of the declared state
      (up to late conditional gates or the whole conditional table), and the
      context and batteries that were sent. */
  ghost predicate Converged(s: State) {
    var p, log := s.peripheral, s.trace.log;
    var g, h := LatestFull(log), LatestSent(log);
    && s.central.lastAcked == p.lastApplied == Some(s.declared.revision)
    && Latest(s, g) && SameDeclared(SnapshotAt(log, g), s.declared)
    && p.engine.Some? && p.engine.value.revision == s.declared.revision
    && Faithful(log, g, p.engine.value)
    && CameWith(log, h, Replicated(p.context), p.batteries)
    && (Portable(log, g) ==> FaithfulTo(p.engine.value, SnapshotAt(log, g)))
    && (Portable(log, h) ==> Replicated(p.context) == ContextAt(log, h) && p.batteries == BatteriesAt(log, h))
  }

  lemma StateConverges(s: State)
    requires Invariant(s) && Quiescent(s)
    ensures Converged(s)
  {
    hide Quiescent, Invariant, LatestFull, LatestSent, ReplicaDigests, FaithfulTo, Portable, CameWith, YieldsHeld;
    QuiescentFacts(s);
    ConvergedContext(s);
    ConvergedPortable(s.trace.log, LatestFull(s.trace.log), LatestSent(s.trace.log), s.peripheral);
  }

  /** What comparing the digests of a held snapshot with those of the sent one
      decides: they match exactly when the sender stated its extension layers
      and the conditional digests agree, as they do when that table is whole. */
  predicate Attests(sent: Snapshot, held: Snapshot, matches: bool) {
    && (matches <==> sent.extensionLayers.Some? && ConditionalDigest(held) == ConditionalDigest(sent))
    && (held.conditional == Replica(sent).conditional ==> ConditionalDigest(held) == ConditionalDigest(sent))
  }

  lemma FaithfulAttests(sent: Snapshot, held: Snapshot)
    requires FaithfulTo(held, sent)
    ensures Attests(sent, held, ReplicaDigests(held) == ReplicaDigests(sent))
  {
    assert held == Replica(sent).(context := held.context, conditional := held.conditional) by {
      hide Replica, GatesLost;
    }
    DigestsSeen(sent, held);
    ReplicaTables(sent);
    hide ConditionalStream, DomainHash, Replica, ReplicaDigests;
  }

  /** The same of an attestation of what `s.peripheral` applied last, read
      against what the central expects, for a transfer the codec carries. */
  predicate AttestationReads(s: State, recovery: RecoveryState) {
    var g := LatestFull(s.trace.log);
    && s.peripheral.lastDigests.Some? && s.peripheral.engine.Some? && Latest(s, g)
    && (Portable(s.trace.log, g) ==>
         Attests(SnapshotAt(s.trace.log, g), s.peripheral.engine.value,
                 ObserveStep(recovery, s.central.expectedDigests, s.peripheral.lastDigests.value).1.Matching?))
  }

  lemma StateAttests(s: State, recovery: RecoveryState)
    requires Invariant(s) && Quiescent(s)
    ensures AttestationReads(s, recovery)
  {
    hide Quiescent, Invariant, LatestFull, ReplicaDigests, Portable, Attests, FaithfulTo, Faithful, SameDeclared;
    QuiescentFacts(s);
    var g := LatestFull(s.trace.log);
    if Portable(s.trace.log, g) {
      PortableHeld(s.trace.log, g, s.peripheral.engine.value);
      FaithfulAttests(SnapshotAt(s.trace.log, g), s.peripheral.engine.value);
    }
  }

  /** In a quiescent state an attestation matches exactly when it should. A
      snapshot without extension layers never does. */
  lemma QuiescentAttestation(start: Snapshot, actions: seq<Action>, recovery: RecoveryState)
    requires Possible(start, actions) && Quiescent(Exec(start, actions))
    ensures AttestationReads(Exec(start, actions), recovery)
  {
    AlwaysInvariant(start, actions);
    StateAttests(Exec(start, actions), recovery);
    hide Exec, Possible, Quiescent, Invariant, AttestationReads;
  }

  // ---- Acknowledgements ----

  /** Everything the peripheral says it applied, it applied. The request in the
      signal or with the worker describes the snapshot in the slot until the
      engine takes it; every acknowledgement of a full transfer, the applied
      revision and the digests name a snapshot the engine accepted; and what a
      full slot refused is never among those. */
  lemma AcksTellTheTruth(start: Snapshot, actions: seq<Action>)
    requires Possible(start, actions)
    ensures var s := Exec(start, actions); var p, t := s.peripheral, s.trace;
            && (p.signal.Some? ==> p.slot.Some? && Describes(p.signal.value, t.slotGen, p.slot.value))
            && (p.worker.Asking? ==> p.slot.Some? && Describes(p.worker.request, t.slotGen, p.slot.value))
            && (p.slot.Some? ==> Faithful(t.log, t.slotGen, p.slot.value))
            && (p.lastApplied.Some? ==>
                 && t.lastGen in t.applied
                 && p.lastApplied == Some(t.applied[t.lastGen].revision)
                 && p.lastDigests == Some(ReplicaDigests(t.applied[t.lastGen])))
    ensures var s := Exec(start, actions); var t := s.trace;
            && (forall r :: r in s.back && r.message.Ack? && FullAt(t.log, r.gen) ==>
                 && r.gen in t.applied && r.gen !in t.refused
                 && r.message == Ack(Byte(r.gen), t.applied[r.gen].revision))
            && (forall g :: g in t.applied ==> g !in t.refused && Faithful(t.log, g, t.applied[g]))
  {
    var s := Exec(start, actions);
    AlwaysInvariant(start, actions);
    hide Exec, Possible, ReplicaDigests, CentralSide, WireSide, BeliefSide, StageSide, ContextSide, CommittedBy, Byte;
    hide FaithfulTo, Portable;
    forall r | r in s.back && r.message.Ack? && FullAt(s.trace.log, r.gen)
      ensures r.gen in s.trace.applied && r.gen !in s.trace.refused
      ensures r.message == Ack(Byte(r.gen), s.trace.applied[r.gen].revision)
    {
      assert TrueReply(r, s.peripheral, s.trace);
    }
  }
}

/** What every reachable state of the whole system satisfies. */
module SystemInvariant {
  import opened Prelude
  import opened Lighting
  import opened Codec
  import opened CodecProofs
  import opened Transaction
  import opened Staging
  import opened Digesting
  import opened Loss
  import opened LossSafety
  import opened Central
  import opened Peripheral
  import opened System

  /** Equal in everything a revision stands for: all but context and time. */
  predicate SameDeclared(a: Snapshot, b: Snapshot) {
    a == b.(context := a.context, sampleTimeMs := a.sampleTimeMs)
  }

  function RevisionAt(log: Log, g: nat): u32
    requires Logged(log, g)
  {
    match log[g - 1].value case Full(s, _) => s.revision case Delta(r, _, _) => r
  }

  /** The transfer crosses the codec unharmed. */
  predicate Portable(log: Log, g: nat) {
    && Logged(log, g)
    && match log[g - 1].value
       case Full(s, b) => Queueable(s) && CarriableSnapshot(s, b)
       case Delta(_, _, b) => CarriableBattery(b.left) && CarriableBattery(b.right)
  }

  /** The snapshot is the replica of the one sent, up to late conditional gates
      or the whole conditional table, and the receiver's own context fields. */
  predicate FaithfulTo(held: Snapshot, sent: Snapshot) {
    && held == Replica(sent).(conditional := held.conditional, context := held.context)
    && Replicated(held.context) == Replicated(sent.context)
    && (held.conditional == [] || GatesLost(held.conditional, RightConditional(sent.conditional)))
  }

  /** Packet by packet, `heard` is what the packets of `ms` at the positions `at`
      decode to. */
  ghost predicate ReadAt(at: seq<nat>, heard: seq<Message>, ms: seq<Message>) {
    && |at| == |heard|
    && (forall i, j :: 0 <= i < j < |at| ==> at[i] < at[j])
    && (forall i :: 0 <= i < |at| ==> at[i] < |ms| && Decode(Encode(ms[at[i]])) == Ok(heard[i]))
  }

  /** What some selection of the packets of `ms` decodes to, in order. */
  ghost predicate Selected(heard: seq<Message>, ms: seq<Message>) { exists at :: ReadAt(at, heard, ms) }

  /** The stager makes `out` of some selection of `ms`. */
  ghost predicate Yields(ms: seq<Message>, out: Staged) {
    exists heard :: Selected(heard, ms) && out in Feed(None, heard).outputs
  }

  ghost predicate YieldsHeld(ms: seq<Message>, held: Snapshot) {
    exists out :: Yields(ms, out) && SameButOwn(held, out.snapshot)
  }

  /** Equal but for the receiver's own context fields. */
  predicate SameButOwn(held: Snapshot, staged: Snapshot) {
    held == staged.(context := held.context) && Replicated(held.context) == Replicated(staged.context)
  }

  /** A snapshot the stager made of packets of that transfer and no other. */
  ghost predicate Faithful(log: Log, g: nat, held: Snapshot) {
    FullAt(log, g) && held.revision == SnapshotAt(log, g).revision && YieldsHeld(PacketsOf(log, g), held)
  }

  ghost predicate YieldsContext(ms: seq<Message>, c: ReplicatedContext, b: BatteryPair) {
    exists out :: Yields(ms, out) && Replicated(out.snapshot.context) == c && out.batteries == b
  }

  /** Context and batteries that came with that transfer: with a snapshot the
      stager made of its packets, or as its one packet decodes. */
  ghost predicate CameWith(log: Log, g: nat, c: ReplicatedContext, b: BatteryPair) {
    && Logged(log, g)
    && if FullAt(log, g) then YieldsContext(PacketsOf(log, g), c, b)
       else Selected([ContextUpdate(Byte(g), RevisionAt(log, g), c, b)], PacketsOf(log, g))
  }

  // ---- The central's side ----

  ghost predicate SoundLog(log: Log) { forall g :: FullAt(log, g) ==> CountsInRange(SnapshotAt(log, g)) }

  predicate AwaitsLatest(pending: PendingAck, log: Log) {
    && Logged(log, |log|)
    && pending.generation == Byte(|log|)
    && pending.revision == RevisionAt(log, |log|)
    && (pending.kind.FullSnapshot? <==> FullAt(log, |log|))
  }

  /** With nothing dirty the latest full snapshot is the declared one. */
  predicate UpToDate(c: CentralState, declared: Snapshot, unread: bool, log: Log) {
    c.linkUp && !c.fullDirty && !unread ==>
      LatestFull(log) > 0 && SameDeclared(SnapshotAt(log, LatestFull(log)), declared)
  }

  predicate ExpectsLatest(c: CentralState, log: Log) {
    LatestFull(log) > 0 ==> c.expectedDigests == Some(ReplicaDigests(SnapshotAt(log, LatestFull(log))))
  }

  /** Which transfer the last acknowledged revision names. */
  predicate AckedSide(c: CentralState, log: Log, acked: nat, settled: nat) {
    && (c.lastAcked.Some? ==> FullAt(log, acked) && c.lastAcked == Some(SnapshotAt(log, acked).revision))
    && (c.linkUp && !c.fullDirty && (c.awaiting.None? || c.awaiting.value.kind.ContextOnly?) ==>
         c.lastAcked.Some? && acked == LatestFull(log))
    && (c.linkUp && !c.fullDirty && c.awaiting.None? ==> settled > 0 && settled == LatestSent(log))
  }

  ghost predicate CentralSide(c: CentralState, declared: Snapshot, exported: Option<Snapshot>, unread: bool,
                              t: Provenance) {
    && Sound(c) && SoundLog(t.log)
    && c.generation == Byte(|t.log|)
    && (exported.Some? ==> WantsToSend(c) && (!unread ==> SameDeclared(exported.value, declared)))
    && (c.awaiting.Some? ==> AwaitsLatest(c.awaiting.value, t.log))
    && UpToDate(c, declared, unread, t.log)
    && ExpectsLatest(c, t.log)
    && AckedSide(c, t.log, t.ackedGen, t.settledGen)
  }

  // ---- The wire and the stage ----

  predicate Before(p: InFlight, q: InFlight) { p.gen < q.gen || (p.gen == q.gen && p.idx < q.idx) }

  predicate NotYet(p: InFlight, t: Provenance) { p.gen > t.rxGen || (p.gen == t.rxGen && p.idx >= t.rxPos) }

  predicate WireSide(out: seq<InFlight>, t: Provenance) {
    && t.rxGen <= |t.log|
    && (t.rxGen > 0 ==> Logged(t.log, t.rxGen) && t.rxPos <= |PacketsOf(t.log, t.rxGen)|)
    && (forall p :: p in out ==> Deliverable(t.log, p) && NotYet(p, t))
    && (forall i, j :: 0 <= i < j < |out| ==> Before(out[i], out[j]))
  }

  ghost predicate HeardSide(stage: Option<Stage>, t: Provenance)
    requires FullAt(t.log, t.stageGen)
  {
    var packets := PacketsOf(t.log, t.stageGen);
    && stage == Feed(None, t.heard).stage
    && Selected(t.heard, packets)
    && (t.stageGen == t.rxGen ==> t.rxPos <= |packets| && Selected(t.heard, packets[..t.rxPos]))
  }

  ghost predicate StageSide(stage: Option<Stage>, t: Provenance) {
    && t.stageGen <= t.rxGen
    && (stage.Some? ==>
         FullAt(t.log, t.stageGen) && stage.value.Of(Byte(t.stageGen), SnapshotAt(t.log, t.stageGen).revision))
    && (FullAt(t.log, t.stageGen) ==> HeardSide(stage, t))
  }

  // ---- The hand-off ----

  /** The transfer's commit has been delivered. */
  predicate CommittedBy(g: nat, t: Provenance) {
    && FullAt(t.log, g)
    && (g < t.rxGen || (g == t.rxGen && t.rxPos == |PacketsOf(t.log, g)|))
  }

  predicate Describes(request: ApplyRequest, g: nat, held: Snapshot) {
    request == ApplyRequest(Byte(g), held.revision, ReplicaDigests(held))
  }

  ghost predicate SlotSide(p: PeripheralState, t: Provenance) {
    && (p.slot.Some? ==>
         && CommittedBy(t.slotGen, t) && Faithful(t.log, t.slotGen, p.slot.value)
         && t.slotGen !in t.applied && t.slotGen !in t.refused && t.slotGen <= t.contextGen
         && (p.engine.Some? ==> t.engineGen < t.slotGen))
    && (p.signal.Some? ==>
         p.slot.Some? && t.signalGen == t.slotGen && Describes(p.signal.value, t.slotGen, p.slot.value))
    && (p.worker.Asking? ==>
         p.slot.Some? && p.signal.None? && t.workerGen == t.slotGen
         && Describes(p.worker.request, t.slotGen, p.slot.value))
    && (p.worker.Answered? && p.worker.accepted ==>
         p.engine.Some? && t.workerGen == t.engineGen && Describes(p.worker.request, t.engineGen, p.engine.value))
  }

  ghost predicate EngineSide(p: PeripheralState, t: Provenance) {
    && (forall g :: g in t.applied ==> CommittedBy(g, t) && Faithful(t.log, g, t.applied[g]) && g !in t.refused)
    && (forall g :: g in t.refused ==> CommittedBy(g, t))
    && (p.engine.Some? ==>
         t.engineGen in t.applied && p.engine == Some(t.applied[t.engineGen]) && t.engineGen <= t.contextGen)
    && (p.lastApplied.Some? ==>
         && t.lastGen in t.applied
         && p.lastApplied == Some(t.applied[t.lastGen].revision)
         && p.lastDigests == Some(ReplicaDigests(t.applied[t.lastGen]))
         && p.engine.Some? && t.lastGen <= t.engineGen)
    && (p.lastApplied.None? ==> p.lastDigests.None?)
  }

  ghost predicate ContextSide(p: PeripheralState, t: Provenance) {
    && t.contextGen <= t.rxGen
    && (t.contextGen > 0 ==> CameWith(t.log, t.contextGen, Replicated(p.context), p.batteries))
  }

  // ---- Acknowledgements ----

  predicate TrueReply(r: Reply, p: PeripheralState, t: Provenance) {
    match r.message
    case Ack(g, revision) =>
      && Logged(t.log, r.gen) && g == Byte(r.gen) && revision == RevisionAt(t.log, r.gen)
      && (FullAt(t.log, r.gen) ==> r.gen in t.applied)
      && (r.gen > t.bootGen ==>
           && r.gen <= t.contextGen
           && (FullAt(t.log, r.gen) ==> p.lastApplied.Some? && r.gen <= t.lastGen))
    case Attestation(_, digests) => r.gen in t.applied && digests == ReplicaDigests(t.applied[r.gen])
    case _ => false
  }

  predicate BackSide(back: seq<Reply>, p: PeripheralState, t: Provenance) {
    forall r :: r in back ==> TrueReply(r, p, t)
  }

  /** What the central believes, as long as it has seen every link edge. */
  predicate BeliefSide(c: CentralState, linkUnread: bool, p: PeripheralState, t: Provenance) {
    && t.bootGen <= |t.log|
    && (!linkUnread && c.awaiting.Some? ==> t.bootGen < |t.log|)
    && (!linkUnread && c.lastAcked.Some? ==> p.lastApplied.Some? && t.ackedGen <= t.lastGen)
    && (!linkUnread && c.linkUp && !c.fullDirty && c.awaiting.None? ==> t.settledGen <= t.contextGen)
  }

  /** All that speaks of neither the central nor the packets on their way. */
  ghost predicate FarSide(p: PeripheralState, back: seq<Reply>, t: Provenance) {
    && StageSide(p.stage, t)
    && SlotSide(p, t)
    && EngineSide(p, t)
    && ContextSide(p, t)
    && BackSide(back, p, t)
  }

  ghost predicate Invariant(s: State) {
    && CentralSide(s.central, s.declared, s.exported, s.lightingUnread, s.trace)
    && WireSide(s.out, s.trace)
    && FarSide(s.peripheral, s.back, s.trace)
    && BeliefSide(s.central, s.linkUnread, s.peripheral, s.trace)
  }

  lemma NothingSelected()
    ensures forall ms :: Selected([], ms)
  {
    forall ms ensures Selected([], ms) {
      assert ReadAt([], [], ms);
    }
  }

  lemma StartHolds(declared: Snapshot)
    ensures Invariant(Start(declared))
  {
  }

  // ---- Transfers the codec carries ----

  /** Of packets the codec carries, a selection reads as a subsequence. */
  lemma {:induction false} CarriedSelection(at: seq<nat>, heard: seq<Message>, ms: seq<Message>)
    requires ReadAt(at, heard, ms) && AllCarriable(ms)
    ensures Subsequence(heard, CarriedAll(ms))
    decreases |ms|
  {
    hide Encode, Decode, Carriable, Carried;
    if heard != [] {
      var n := |at| - 1;
      assert at[n] < |ms|;
      var init := ms[..|ms| - 1];
      if at[n] < |ms| - 1 {
        assert forall i :: 0 <= i < n ==> at[i] < at[n];
        CarriedSelection(at, heard, init);
        SubsequenceSnoc(heard, CarriedAll(init), Carried(ms[|ms| - 1]));
      } else {
        CarriedSelection(at[..n], heard[..n], init);
        CodecCarries(ms[|ms| - 1]);
        SubsequenceSnoc(heard[..n], CarriedAll(init), heard[n]);
        assert heard == heard[..n] + [heard[n]];
      }
    }
  }

  lemma LossyIsFaithful(g: u8, s: Snapshot, b: BatteryPair, heard: seq<Message>, out: Staged)
    requires Queueable(s) && CarriableSnapshot(s, b)
    requires Subsequence(heard, ReceivedWalk(g, s, b)) && out in Feed(None, heard).outputs
    ensures FaithfulTo(out.snapshot, s) && out.batteries == b
  {
    hide Feed, ReceivedWalk, WithoutConditional, SolidCount, Queueable, CarriableSnapshot;
    LossSafety.LossSafety(None, heard, g, s, b);
    var outputs := Feed(None, heard).outputs;
    assert out == outputs[0];
    assert Replicated(Replica(s).context) == Replicated(s.context);
  }

  /** What comes out of such a transfer is the sent snapshot's replica. */
  lemma PortableYields(log: Log, g: nat, out: Staged)
    requires FullAt(log, g) && Portable(log, g) && Yields(PacketsOf(log, g), out)
    ensures FaithfulTo(out.snapshot, SnapshotAt(log, g)) && out.batteries == BatteriesAt(log, g)
  {
    var s, b := SnapshotAt(log, g), BatteriesAt(log, g);
    hide Walk, ReceivedWalk, CarriableSnapshot, Queueable, Feed, Byte, FaithfulTo, ReadAt, Encode, Decode;
    var heard :| Selected(heard, PacketsOf(log, g)) && out in Feed(None, heard).outputs;
    var at :| ReadAt(at, heard, PacketsOf(log, g));
    WalkCarriable(Byte(g), s, b);
    CarriedWalk(Byte(g), s, b);
    CarriedSelection(at, heard, PacketsOf(log, g));
    LossyIsFaithful(Byte(g), s, b, heard, out);
  }

  lemma PortableHeld(log: Log, g: nat, held: Snapshot)
    requires Faithful(log, g, held) && Portable(log, g)
    ensures FaithfulTo(held, SnapshotAt(log, g))
  {
    hide PacketsOf, Yields, Replica, GatesLost;
    var out :| Yields(PacketsOf(log, g), out) && SameButOwn(held, out.snapshot);
    PortableYields(log, g, out);
  }

  lemma PortableContext(log: Log, g: nat, c: ReplicatedContext, b: BatteryPair)
    requires CameWith(log, g, c, b) && Portable(log, g)
    ensures c == ContextAt(log, g) && b == BatteriesAt(log, g)
  {
    hide Yields, Replica, GatesLost, Byte, Encode, Decode, Walk;
    if FullAt(log, g) {
      var out :| Yields(PacketsOf(log, g), out) && Replicated(out.snapshot.context) == c && out.batteries == b;
      PortableYields(log, g, out);
    } else {
      var m := PacketsOf(log, g)[0];
      CodecCarries(m);
      var at :| ReadAt(at, [ContextUpdate(Byte(g), RevisionAt(log, g), c, b)], PacketsOf(log, g));
      assert at[0] == 0;
    }
  }

  // ---- The central's steps ----

  lemma {:induction false} NothingLater(log: Log, g: nat)
    requires g <= |log|
    ensures g > LatestFull(log) ==> !FullAt(log, g)
    ensures g > LatestSent(log) ==> !Logged(log, g)
  {
    if g < |log| { NothingLater(log[..|log| - 1], g); }
  }

  lemma LatestSnoc(log: Log, x: Option<Transfer>)
    ensures LatestFull(log + [x]) == if x.Some? && x.value.Full? then |log| + 1 else LatestFull(log)
    ensures LatestSent(log + [x]) == if x.Some? then |log| + 1 else LatestSent(log)
  {
    assert (log + [x])[..|log|] == log;
  }

  /** Entries stay where they are when the log grows. */
  lemma EntryStays(log: Log, x: Option<Transfer>, g: nat)
    requires Logged(log, g)
    ensures Logged(log + [x], g) && (log + [x])[g - 1] == log[g - 1]
  {
  }
}

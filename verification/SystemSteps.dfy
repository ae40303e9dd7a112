/** Every step of the system keeps its invariant. */
module SystemSteps {
  import opened Prelude
  import opened Lighting
  import opened Codec
  import opened CodecProofs
  import opened Transaction
  import opened Staging
  import opened Digesting
  import opened Loss
  import opened LossSafety
  import opened Central
  import opened Peripheral
  import opened System
  import opened SystemInvariant

  // ---- Steps of the central's loop and its surroundings ----

  lemma RefreshKeeps(s: State)
    requires Invariant(s) && s.exported.None?
    ensures Invariant(s.(central := Refreshed(s.central, s.now)))
  {
    hide LatestFull, LatestSent, AwaitsLatest, SoundLog, ReplicaDigests;
    hide WireSide, FarSide;
  }

  lemma ExportKeeps(s: State)
    requires Invariant(s) && s.exported.None? && WantsToSend(s.central)
    ensures Invariant(s.(exported := Some(s.declared)))
    ensures Invariant(s.(central := Sent(s.central, None, false, s.now)))
  {
    hide LatestFull, LatestSent, AwaitsLatest, SoundLog, ReplicaDigests;
    hide WireSide, FarSide;
  }

  lemma LinkKeeps(s: State, up: bool)
    requires Invariant(s) && s.exported.None?
    ensures Invariant(s.(central := LinkChanged(s.central, up), linkUnread := false))
  {
    hide LatestFull, LatestSent, AwaitsLatest, SoundLog, ReplicaDigests;
    hide WireSide, FarSide;
  }

  lemma EventKeeps(s: State)
    requires Invariant(s) && s.exported.None?
    ensures Invariant(s.(central := LightingChanged(s.central), lightingUnread := false))
    ensures Invariant(s.(central := ContextChanged(s.central)))
  {
    hide LatestFull, LatestSent, AwaitsLatest, SoundLog, ReplicaDigests;
    hide WireSide, FarSide;
  }

  lemma ElapseKeeps(s: State)
    requires Invariant(s) && s.exported.None?
    ensures Invariant(s.(central := TimedOut(s.central, s.now)))
  {
    hide LatestFull, LatestSent, AwaitsLatest, SoundLog, ReplicaDigests;
    hide WireSide, FarSide;
  }

  lemma SurroundingsKeep(s: State, declared: Snapshot, context: LightingContext, sampleTimeMs: u64, now: nat)
    requires Invariant(s)
    ensures Invariant(s.(declared := declared, lightingUnread := true))
    ensures Invariant(s.(declared := s.declared.(context := context, sampleTimeMs := sampleTimeMs)))
    ensures Invariant(s.(linkUnread := true))
    ensures Invariant(s.(now := now))
  {
    hide LatestFull, LatestSent, AwaitsLatest, SoundLog, ReplicaDigests, Sound;
    hide WireSide, FarSide;
  }

  // ---- Queueing ----

  /** `log` is the log of `t` with `x` added, as far as the central can tell. */
  ghost predicate Grown(log: Log, t: Provenance, x: Option<Transfer>) {
    && SoundLog(log)
    && LatestFull(log) == (if x.Some? && x.value.Full? then |log| else LatestFull(t.log))
    && LatestSent(log) == (if x.Some? then |log| else LatestSent(t.log))
    && (LatestFull(t.log) > 0 ==> SameEntry(log, t.log, LatestFull(t.log)))
    && (FullAt(t.log, t.ackedGen) ==> SameEntry(log, t.log, t.ackedGen))
    && (x.Some? ==> Logged(log, |log|) && log[|log| - 1] == x)
  }

  predicate SameEntry(a: Log, b: Log, g: nat) { Logged(a, g) && Logged(b, g) && a[g - 1] == b[g - 1] }

  lemma Grows(c: CentralState, t: Provenance, x: Option<Transfer>)
    requires SoundLog(t.log) && (x.Some? && x.value.Full? ==> CountsInRange(x.value.snapshot))
    requires c.generation == Byte(|t.log|)
    ensures Grown(t.log + [x], t, x)
    ensures NextGeneration(c) == Byte(|t.log + [x]|)
  {
    LatestSnoc(t.log, x);
    hide CountsInRange, LatestFull, LatestSent;
    forall g: nat | FullAt(t.log + [x], g) ensures CountsInRange(SnapshotAt(t.log + [x], g)) {
      assert g <= |t.log| ==> FullAt(t.log, g);
    }
  }

  lemma RefusedCentral(c: CentralState, s: Snapshot, declared: Snapshot, unread: bool, t: Provenance, log: Log,
                       now: nat)
    requires CentralSide(c, declared, Some(s), unread, t)
    requires Grown(log, t, None) && NextGeneration(c) == Byte(|log|)
    ensures CentralSide(Sent(c, Some(s), false, now), declared, None, unread, t.(log := log))
  {
    hide Byte, NextGeneration, LatestFull, LatestSent, SoundLog, ReplicaDigests, SameDeclared, AwaitsLatest;
  }

  lemma AcceptedCentral(c: CentralState, s: Snapshot, declared: Snapshot, unread: bool, t: Provenance,
                        b: BatteryPair, log: Log, now: nat)
    requires CentralSide(c, declared, Some(s), unread, t)
    requires Grown(log, t, Some(TransferOf(c, s, b))) && NextGeneration(c) == Byte(|log|)
    ensures CentralSide(Sent(c, Some(s), true, now), declared, None, unread, t.(log := log))
  {
    hide Byte, NextGeneration, LatestFull, LatestSent, SoundLog, ReplicaDigests, SameDeclared;
  }

  /** Every entry of `past` is still there; there may be newer ones. */
  ghost predicate Extends(log: Log, past: Log) {
    && |past| <= |log|
    && (forall g: nat :: Logged(past, g) ==> SameEntry(log, past, g))
    && (forall g: nat :: g <= |past| && Logged(log, g) ==> Logged(past, g))
  }

  lemma EntryFacts(log: Log, past: Log, g: nat)
    requires Extends(log, past) && g <= |past|
    ensures Logged(log, g) == Logged(past, g) && FullAt(log, g) == FullAt(past, g)
      && Portable(log, g) == Portable(past, g)
    ensures Logged(log, g) ==>
      && PacketsOf(log, g) == PacketsOf(past, g) && RevisionAt(log, g) == RevisionAt(past, g)
      && BatteriesAt(log, g) == BatteriesAt(past, g) && ContextAt(log, g) == ContextAt(past, g)
    ensures FullAt(log, g) ==> SnapshotAt(log, g) == SnapshotAt(past, g)
    ensures forall held :: Faithful(log, g, held) == Faithful(past, g, held)
    ensures forall c, b :: CameWith(log, g, c, b) == CameWith(past, g, c, b)
  {
    assert Logged(past, g) ==> SameEntry(log, past, g);
    hide Extends, Walk, Selected, Queueable, CarriableSnapshot, YieldsHeld, YieldsContext, Byte;
  }

  lemma CommittedWithin(t: Provenance, g: nat)
    requires CommittedBy(g, t)
    ensures g <= |t.log|
  {
    hide PacketsOf;
  }

  lemma CommittedStays(log: Log, t: Provenance, g: nat)
    requires Extends(log, t.log) && g <= |t.log|
    ensures CommittedBy(g, t.(log := log)) == CommittedBy(g, t)
  {
    EntryFacts(log, t.log, g);
    hide Extends, PacketsOf, FullAt;
  }

  lemma ExtendWire(out: seq<InFlight>, t: Provenance, log: Log)
    requires WireSide(out, t) && Extends(log, t.log)
    ensures WireSide(out, t.(log := log))
    ensures forall p :: p in out ==> p.gen <= |t.log|
  {
    var u := t.(log := log);
    EntryFacts(log, t.log, t.rxGen);
    forall p | p in out ensures Deliverable(log, p) && NotYet(p, u) && p.gen <= |t.log| {
      EntryFacts(log, t.log, p.gen);
    }
    hide Extends, PacketsOf;
  }

  /** A new transfer goes behind everything in flight. */
  lemma AppendWire(out: seq<InFlight>, t: Provenance)
    requires WireSide(out, t) && Logged(t.log, |t.log|) && t.rxGen < |t.log|
    requires forall p :: p in out ==> p.gen < |t.log|
    ensures WireSide(out + Numbered(|t.log|, |PacketsOf(t.log, |t.log|)|), t)
  {
    var more := Numbered(|t.log|, |PacketsOf(t.log, |t.log|)|);
    hide PacketsOf;
    assert forall p :: p in more ==> Deliverable(t.log, p) && NotYet(p, t);
    forall i, j | 0 <= i < j < |out + more| ensures Before((out + more)[i], (out + more)[j]) {
      hide WireSide, Logged, NotYet;
      assert i < |out| ==> (out + more)[i] in out;
    }
  }

  lemma ExtendStage(stage: Option<Stage>, t: Provenance, log: Log)
    requires StageSide(stage, t) && t.rxGen <= |t.log| && Extends(log, t.log)
    ensures StageSide(stage, t.(log := log))
  {
    hide Extends, SnapshotAt, PacketsOf, Selected, Faithful, CameWith, Feed, Byte;
    EntryFacts(log, t.log, t.stageGen);
  }

  lemma ExtendSlot(p: PeripheralState, t: Provenance, log: Log)
    requires SlotSide(p, t) && Extends(log, t.log)
    ensures SlotSide(p, t.(log := log))
  {
    hide Extends, FullAt, CommittedBy, Faithful, Describes;
    if p.slot.Some? {
      CommittedWithin(t, t.slotGen);
      EntryFacts(log, t.log, t.slotGen);
      CommittedStays(log, t, t.slotGen);
    }
  }

  lemma ExtendEngine(p: PeripheralState, t: Provenance, log: Log)
    requires EngineSide(p, t) && Extends(log, t.log)
    ensures EngineSide(p, t.(log := log))
  {
    hide Extends, CommittedBy, Faithful, ReplicaDigests;
    var u := t.(log := log);
    forall g | g in t.applied ensures CommittedBy(g, u) && Faithful(log, g, t.applied[g]) {
      CommittedWithin(t, g);
      EntryFacts(log, t.log, g);
      CommittedStays(log, t, g);
    }
    forall g | g in t.refused ensures CommittedBy(g, u) {
      CommittedWithin(t, g);
      CommittedStays(log, t, g);
    }
  }

  lemma ExtendContext(p: PeripheralState, t: Provenance, log: Log)
    requires ContextSide(p, t) && t.rxGen <= |t.log| && Extends(log, t.log)
    ensures ContextSide(p, t.(log := log))
  {
    hide Extends, Logged, CameWith, Replicated;
    EntryFacts(log, t.log, t.contextGen);
  }

  lemma ExtendBack(back: seq<Reply>, p: PeripheralState, t: Provenance, log: Log)
    requires BackSide(back, p, t) && Extends(log, t.log)
    ensures BackSide(back, p, t.(log := log))
  {
    forall r | r in back ensures TrueReply(r, p, t.(log := log)) {
      assert TrueReply(r, p, t);
      if r.message.Ack? { EntryFacts(log, t.log, r.gen); }
      hide Extends, Logged, FullAt, RevisionAt, Byte, ReplicaDigests;
    }
  }

  lemma ExtendBelief(c: CentralState, d: CentralState, linkUnread: bool, p: PeripheralState, t: Provenance, log: Log)
    requires BeliefSide(c, linkUnread, p, t) && |log| == |t.log| + 1
    requires d.lastAcked == c.lastAcked && d.linkUp == c.linkUp
    requires d.awaiting.None? ==> d.fullDirty == c.fullDirty && c.awaiting.None?
    ensures BeliefSide(d, linkUnread, p, t.(log := log))
  {
  }

  lemma ExtendFar(s: State, log: Log)
    requires FarSide(s.peripheral, s.back, s.trace) && s.trace.rxGen <= |s.trace.log| && Extends(log, s.trace.log)
    ensures FarSide(s.peripheral, s.back, s.trace.(log := log))
  {
    hide StageSide, SlotSide, EngineSide, ContextSide, BackSide, Extends;
    ExtendStage(s.peripheral.stage, s.trace, log);
    ExtendSlot(s.peripheral, s.trace, log);
    ExtendEngine(s.peripheral, s.trace, log);
    ExtendContext(s.peripheral, s.trace, log);
    ExtendBack(s.back, s.peripheral, s.trace, log);
  }

  lemma PlusOneExtends(log: Log, x: Option<Transfer>)
    ensures Extends(log + [x], log)
  {
  }

  lemma QueueFacts(s: State)
    requires Invariant(s) && s.exported.Some?
    ensures CentralSide(s.central, s.declared, s.exported, s.lightingUnread, s.trace) && WireSide(s.out, s.trace)
    ensures FarSide(s.peripheral, s.back, s.trace)
    ensures BeliefSide(s.central, s.linkUnread, s.peripheral, s.trace)
    ensures SoundLog(s.trace.log) && s.central.generation == Byte(|s.trace.log|) && s.trace.rxGen <= |s.trace.log|
    ensures WantsToSend(s.central)
  {
    hide SoundLog, UpToDate, ExpectsLatest, AckedSide, Deliverable, FarSide, BeliefSide;
  }

  /** The entry an offer adds to the log. */
  function Entry(s: State, accepted: bool, b: BatteryPair): Option<Transfer>
    requires s.exported.Some?
  {
    if accepted then Some(TransferOf(s.central, s.exported.value, b)) else None
  }

  lemma QueuedHolds(s: State, accepted: bool, b: BatteryPair, log: Log)
    requires s.exported.Some? && log == s.trace.log + [Entry(s, accepted, b)]
    requires var u, d := s.trace.(log := log), Sent(s.central, s.exported, accepted, s.now);
             && CentralSide(d, s.declared, None, s.lightingUnread, u)
             && WireSide(if accepted then s.out + Numbered(|log|, |PacketsOf(log, |log|)|) else s.out, u)
             && FarSide(s.peripheral, s.back, u) && BeliefSide(d, s.linkUnread, s.peripheral, u)
    ensures Invariant(Queued(s, accepted, b))
  {
    hide CentralSide, WireSide, FarSide, BeliefSide, Sent, TransferOf, PacketsOf, Numbered;
  }

  lemma QueueKeeps(s: State, accepted: bool, b: BatteryPair)
    requires Invariant(s) && s.exported.Some?
    requires accepted ==> SendsDelta(s.central, s.exported.value) || CountsInRange(s.exported.value)
    ensures Invariant(Queued(s, accepted, b))
  {
    hide Invariant, CentralSide, WireSide, FarSide, BeliefSide, SoundLog, CountsInRange, Byte, Grown, Extends, Queued;
    var c, t, snapshot := s.central, s.trace, s.exported.value;
    var x := Entry(s, accepted, b);
    var log := t.log + [x];
    QueueFacts(s);
    Grows(c, t, x);
    PlusOneExtends(t.log, x);
    if accepted {
      AcceptedCentral(c, snapshot, s.declared, s.lightingUnread, t, b, log, s.now);
    } else {
      RefusedCentral(c, snapshot, s.declared, s.lightingUnread, t, log, s.now);
    }
    ExtendBelief(c, Sent(c, s.exported, accepted, s.now), s.linkUnread, s.peripheral, t, log);
    QueueWire(s.out, t, x, log);
    ExtendFar(s, log);
    QueuedHolds(s, accepted, b, log);
  }

  lemma QueueWire(out: seq<InFlight>, t: Provenance, x: Option<Transfer>, log: Log)
    requires WireSide(out, t) && log == t.log + [x] && Extends(log, t.log)
    ensures WireSide(if x.Some? then out + Numbered(|log|, |PacketsOf(log, |log|)|) else out, t.(log := log))
  {
    ExtendWire(out, t, log);
    if x.Some? { AppendWire(out, t.(log := log)); }
  }

  // ---- Losses ----

  lemma DroppedMembers<T>(queue: seq<T>, at: nat)
    requires at < |queue|
    ensures forall x :: x in Dropped(queue, at) ==> x in queue
  {
  }

  lemma DropWire(out: seq<InFlight>, t: Provenance, at: nat)
    requires WireSide(out, t) && at < |out|
    ensures WireSide(Dropped(out, at), t)
  {
    DroppedMembers(out, at);
    var rest := Dropped(out, at);
    hide Deliverable, NotYet, Before, Logged;
    forall i, j | 0 <= i < j < |rest| ensures Before(rest[i], rest[j]) {
      assert Before(out[if i < at then i else i + 1], out[if j < at then j else j + 1]);
    }
  }

  lemma LossKeeps(s: State)
    requires Invariant(s)
    ensures forall at :: 0 <= at < |s.out| ==> Invariant(s.(out := Dropped(s.out, at)))
    ensures forall at :: 0 <= at < |s.back| ==> Invariant(s.(back := Dropped(s.back, at)))
  {
    forall at | 0 <= at < |s.out| ensures WireSide(Dropped(s.out, at), s.trace) { DropWire(s.out, s.trace, at); }
    forall at | 0 <= at < |s.back| ensures BackSide(Dropped(s.back, at), s.peripheral, s.trace) {
      DroppedMembers(s.back, at);
      hide TrueReply;
    }
    hide CentralSide, BeliefSide, WireSide, StageSide, SlotSide, EngineSide, ContextSide, BackSide;
  }

  // ---- Replies ----

  lemma ByteWindow(g: nat, n: nat)
    requires g <= n < g + 256 && Byte(g) == Byte(n)
    ensures g == n
  {
  }

  lemma ReplyDecodes(r: Reply, p: PeripheralState, t: Provenance)
    requires TrueReply(r, p, t)
    ensures Decode(Encode(r.message)) == Ok(r.message)
  {
    CodecCarries(r.message);
    hide Encode, Decode;
  }

  /** Inside the window, the acknowledgement the central takes is the one of the
      transfer it waits for. */
  lemma AckIsCurrent(c: CentralState, r: Reply, p: PeripheralState, t: Provenance)
    requires TrueReply(r, p, t) && r.message.Ack? && |t.log| < r.gen + 256
    requires Awaits(c, r.message.generation, r.message.revision) && AwaitsLatest(c.awaiting.value, t.log)
    ensures r.gen == |t.log|
  {
    ByteWindow(r.gen, |t.log|);
  }

  lemma CurrentIsLatest(log: Log)
    requires Logged(log, |log|)
    ensures LatestSent(log) == |log|
    ensures FullAt(log, |log|) ==> LatestFull(log) == |log|
  {
  }

  /** The central after an acknowledgement it was waiting for. */
  function Acknowledged(c: CentralState): CentralState
    requires c.awaiting.Some?
  {
    Received(c, Ok(Ack(c.awaiting.value.generation, c.awaiting.value.revision)))
  }

  function AckNoted(t: Provenance, kind: TransferKind): Provenance {
    t.(ackedGen := if kind.FullSnapshot? then |t.log| else t.ackedGen, settledGen := |t.log|)
  }

  lemma AckAcked(c: CentralState, t: Provenance)
    requires c.awaiting.Some? && AwaitsLatest(c.awaiting.value, t.log) && Sound(c)
    requires AckedSide(c, t.log, t.ackedGen, t.settledGen)
    ensures var u := AckNoted(t, c.awaiting.value.kind);
            AckedSide(Acknowledged(c), t.log, u.ackedGen, u.settledGen) && Sound(Acknowledged(c))
  {
    CurrentIsLatest(t.log);
    hide LatestSent, LatestFull, Byte;
  }

  lemma AckCentral(c: CentralState, declared: Snapshot, unread: bool, t: Provenance)
    requires CentralSide(c, declared, None, unread, t) && c.awaiting.Some?
    ensures CentralSide(Acknowledged(c), declared, None, unread, AckNoted(t, c.awaiting.value.kind))
  {
    AckAcked(c, t);
    hide LatestSent, LatestFull, ReplicaDigests, SoundLog, SameDeclared, Byte, AckedSide, Sound, AwaitsLatest;
  }

  lemma AckBelief(c: CentralState, linkUnread: bool, p: PeripheralState, t: Provenance, r: Reply)
    requires BeliefSide(c, linkUnread, p, t) && c.awaiting.Some? && AwaitsLatest(c.awaiting.value, t.log)
    requires TrueReply(r, p, t) && r.message.Ack? && r.gen == |t.log|
    ensures BeliefSide(Acknowledged(c), linkUnread, p, AckNoted(t, c.awaiting.value.kind))
  {
    hide ReplicaDigests, Byte;
  }

  lemma AttestKeeps(c: CentralState, declared: Snapshot, unread: bool, linkUnread: bool, p: PeripheralState,
                    t: Provenance, g: u8, digests: Digests)
    requires CentralSide(c, declared, None, unread, t) && BeliefSide(c, linkUnread, p, t)
    ensures Received(c, Ok(Attestation(g, digests))).awaiting == c.awaiting
    ensures CentralSide(Received(c, Ok(Attestation(g, digests))), declared, None, unread, t)
    ensures BeliefSide(Received(c, Ok(Attestation(g, digests))), linkUnread, p, t)
  {
    hide LatestSent, LatestFull, ReplicaDigests, SoundLog, SameDeclared, Byte, AwaitsLatest;
  }

  lemma BackRest(back: seq<Reply>, p: PeripheralState, t: Provenance, acked: nat, settled: nat)
    requires BackSide(back, p, t) && back != []
    ensures BackSide(back[1..], p, t.(ackedGen := acked, settledGen := settled))
  {
    hide ReplicaDigests, Logged, FullAt, RevisionAt, Byte;
    assert forall r :: r in back[1..] ==> TrueReply(r, p, t);
  }

  /** Nothing but the central's side looks at the acknowledged generations. */
  lemma FarIgnoresAcks(p: PeripheralState, out: seq<InFlight>, t: Provenance, acked: nat, settled: nat)
    requires WireSide(out, t) && StageSide(p.stage, t) && SlotSide(p, t) && EngineSide(p, t) && ContextSide(p, t)
    ensures var u := t.(ackedGen := acked, settledGen := settled);
            WireSide(out, u) && StageSide(p.stage, u) && SlotSide(p, u) && EngineSide(p, u) && ContextSide(p, u)
  {
    hide Faithful, Describes, ReplicaDigests, Feed, Selected, PacketsOf, CameWith, Logged, FullAt, Before;
    hide Replicated, SnapshotAt, Deliverable;
    var u := t.(ackedGen := acked, settledGen := settled);
    assert forall g :: CommittedBy(g, u) == CommittedBy(g, t);
  }

  lemma RestKeeps(s: State, c: CentralState, t: Provenance)
    requires Invariant(s) && s.back != []
    requires t == s.trace.(ackedGen := t.ackedGen, settledGen := t.settledGen)
    requires CentralSide(c, s.declared, s.exported, s.lightingUnread, t)
    requires BeliefSide(c, s.linkUnread, s.peripheral, t)
    ensures Invariant(s.(central := c, back := s.back[1..], trace := t))
  {
    BackRest(s.back, s.peripheral, s.trace, t.ackedGen, t.settledGen);
    FarIgnoresAcks(s.peripheral, s.out, s.trace, t.ackedGen, t.settledGen);
    hide CentralSide, BeliefSide, WireSide, StageSide, SlotSide, EngineSide, ContextSide, BackSide;
  }

  lemma HeedAttestation(s: State)
    requires Invariant(s) && s.exported.None? && s.back != [] && s.back[0].message.Attestation?
    requires Decode(Encode(s.back[0].message)) == Ok(s.back[0].message)
    ensures Invariant(Heeded(s))
  {
    var m := s.back[0].message;
    hide Encode, Decode, FarSide, WireSide;
    AttestKeeps(s.central, s.declared, s.lightingUnread, s.linkUnread, s.peripheral, s.trace, m.generation, m.digests);
    hide CentralSide, BeliefSide, Received;
    RestKeeps(s, Received(s.central, Ok(m)), s.trace);
    hide Invariant;
  }

  lemma HeedAck(s: State)
    requires Invariant(s) && s.exported.None? && s.back != [] && |s.trace.log| < s.back[0].gen + 256
    requires s.back[0].message.Ack? && Decode(Encode(s.back[0].message)) == Ok(s.back[0].message)
    requires TrueReply(s.back[0], s.peripheral, s.trace)
    requires Awaits(s.central, s.back[0].message.generation, s.back[0].message.revision)
    ensures Invariant(Heeded(s))
  {
    var r, c, t := s.back[0], s.central, s.trace;
    hide Encode, Decode, FarSide, WireSide;
    assert AwaitsLatest(c.awaiting.value, t.log) by { hide AwaitsLatest, TrueReply, BeliefSide; }
    hide TrueReply, AwaitsLatest;
    AckIsCurrent(c, r, s.peripheral, t);
    AckCentral(c, s.declared, s.lightingUnread, t);
    AckBelief(c, s.linkUnread, s.peripheral, t, r);
    hide CentralSide, BeliefSide;
    RestKeeps(s, Acknowledged(c), AckNoted(t, c.awaiting.value.kind));
    hide Invariant;
  }

  lemma HeedOther(s: State)
    requires Invariant(s) && s.back != []
    requires s.back[0].message.Ack? && Decode(Encode(s.back[0].message)) == Ok(s.back[0].message)
    requires !Awaits(s.central, s.back[0].message.generation, s.back[0].message.revision)
    ensures Invariant(Heeded(s))
  {
    hide Encode, Decode, FarSide, WireSide, CentralSide, BeliefSide;
    RestKeeps(s, s.central, s.trace);
    hide Invariant;
  }

  lemma HeedKeeps(s: State)
    requires Invariant(s) && s.exported.None? && s.back != [] && |s.trace.log| < s.back[0].gen + 256
    ensures Invariant(Heeded(s))
  {
    var m := s.back[0].message;
    assert TrueReply(s.back[0], s.peripheral, s.trace);
    assert m.Ack? || m.Attestation?;
    hide Encode, Decode, Invariant, TrueReply, Heeded, Awaits;
    ReplyDecodes(s.back[0], s.peripheral, s.trace);
    if m.Attestation? {
      HeedAttestation(s);
    } else if Awaits(s.central, m.generation, m.revision) {
      HeedAck(s);
    } else {
      HeedOther(s);
    }
  }
}

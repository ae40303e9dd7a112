/** The central's replication loop: what it sends, when, and what it concludes
    from the answers. */
module Central {
  import opened Prelude
  import opened Lighting
  import opened Codec
  import opened Transaction
  import opened Digesting
  import opened Recovery
  import R = Recovery

  /** Milliseconds a transfer waits for its acknowledgement. */
  const ACK_TIMEOUT: nat := 500
  const RESYNC_FAST_ATTEMPTS: u32 := 5
  const RESYNC_IDLE_BACKOFF: nat := 20000
  const SEND_BACKOFF: nat := 50

  datatype TransferKind = FullSnapshot | ContextOnly

  datatype PendingAck =
    PendingAck(generation: u8, revision: u32, kind: TransferKind, deadline: nat, digests: Option<Digests>)

  datatype Health = Healthy | Resynchronizing | Stale | Diverged | Halted

  /** The loop's locals, and the generation counter. */
  datatype CentralState = CentralState(
    generation: u8,
    linkUp: bool,
    fullDirty: bool,
    contextDirty: bool,
    awaiting: Option<PendingAck>,
    lastAcked: Option<u32>,
    expectedDigests: Option<Digests>,
    health: Health,
    failedAttempts: u32,
    recovery: RecoveryState,
    retryAt: Option<nat>)

  const Initial := CentralState(0, false, true, false, None, None, None, Resynchronizing, 0, Idle, None)

  // ---- One function per arm ----

  function Refreshed(c: CentralState, now: nat): CentralState {
    if c.retryAt.Some? && c.retryAt.value <= now then c.(retryAt := None) else c
  }

  predicate WantsToSend(c: CentralState) {
    && c.linkUp && c.awaiting.None? && (c.fullDirty || c.contextDirty)
    && c.retryAt.None? && !c.health.Halted?
  }

  predicate SendsDelta(c: CentralState, s: Snapshot) { !c.fullDirty && Some(s.revision) == c.lastAcked }

  function NextGeneration(c: CentralState): u8 { (c.generation + 1) % 256 }

  /** What is queued for an exported snapshot. */
  function Offered(c: CentralState, s: Snapshot, batteries: BatteryPair): seq<Message> {
    if SendsDelta(c, s) then [ContextUpdate(NextGeneration(c), s.revision, Replicated(s.context), batteries)]
    else Walk(NextGeneration(c), s, batteries)
  }

  predicate Fits(c: CentralState, s: Snapshot, batteries: BatteryPair, room: int) {
    (SendsDelta(c, s) || CountsInRange(s)) && |Offered(c, s, batteries)| <= room
  }

  function PendingFor(c: CentralState, s: Snapshot, now: nat): PendingAck {
    if SendsDelta(c, s) then
      PendingAck(NextGeneration(c), s.revision, ContextOnly, now + ACK_TIMEOUT, None)
    else
      PendingAck(NextGeneration(c), s.revision, FullSnapshot, now + ACK_TIMEOUT, Some(ReplicaDigests(s)))
  }

  /** The send prologue. `exported` is what the export left in the slot, `None`
      when it failed; the generation moves even when the queue refuses. */
  function Sent(c: CentralState, exported: Option<Snapshot>, accepted: bool, now: nat): CentralState {
    if exported.None? then c.(retryAt := Some(now + SEND_BACKOFF))
    else if !accepted then c.(generation := NextGeneration(c), retryAt := Some(now + SEND_BACKOFF))
    else
      var pending := PendingFor(c, exported.value, now);
      c.(generation := NextGeneration(c), awaiting := Some(pending), fullDirty := false, contextDirty := false,
         expectedDigests := if pending.digests.Some? then pending.digests else c.expectedDigests,
         health := Resynchronizing)
  }

  function LinkChanged(c: CentralState, up: bool): CentralState {
    c.(linkUp := up, failedAttempts := 0, awaiting := None, lastAcked := None, fullDirty := up,
       contextDirty := false, retryAt := None, recovery := Idle,
       health := if up then Resynchronizing else Health.Stale)
  }

  function LightingChanged(c: CentralState): CentralState {
    c.(fullDirty := true, recovery := Idle, health := if c.linkUp then Resynchronizing else c.health)
  }

  function ContextChanged(c: CentralState): CentralState { c.(contextDirty := true) }

  predicate Awaits(c: CentralState, generation: u8, revision: u32) {
    c.awaiting.Some? && c.awaiting.value.generation == generation && c.awaiting.value.revision == revision
  }

  function HealthAfter(decision: Decision): Health {
    match decision
    case Matching => Healthy
    case Recover => Diverged
    case Stale => Health.Stale
    case Halt => Diverged
  }

  /** Acknowledgements of anything but the outstanding transfer change nothing. */
  function Received(c: CentralState, packet: Decoded): CentralState {
    match packet
    case Ok(Ack(g, r)) =>
      if !Awaits(c, g, r) then c
      else if c.awaiting.value.kind.FullSnapshot? then
        c.(awaiting := None, lastAcked := Some(r), recovery := Acknowledge(c.recovery, r),
           failedAttempts := 0, health := Healthy)
      else c.(awaiting := None, failedAttempts := 0, health := Healthy)
    case Ok(Attestation(_, digests)) =>
      var (recovery, decision) := ObserveStep(c.recovery, c.expectedDigests, digests);
      c.(recovery := recovery, health := HealthAfter(decision))
    case _ => c
  }

  function TimedOut(c: CentralState, now: nat): CentralState {
    if c.awaiting.None? || c.awaiting.value.deadline > now then c
    else
      var failed := Min(c.failedAttempts + 1, 0xffff_ffff);
      var d := c.(awaiting := None, fullDirty := c.linkUp, failedAttempts := failed);
      if failed >= RESYNC_FAST_ATTEMPTS then d.(retryAt := Some(now + RESYNC_IDLE_BACKOFF), health := Health.Stale)
      else d.(health := Resynchronizing)
  }

  // ---- The loop as the firmware runs it ----

  class CentralReplication {
    var generation: u8
    var linkUp: bool
    var fullDirty: bool
    var contextDirty: bool
    var awaiting: Option<PendingAck>
    var lastAcked: Option<u32>
    var expectedDigests: Option<Digests>
    var health: Health
    var failedAttempts: u32
    var retryAt: Option<nat>
    const recovery: AttestationRecovery
    const tx: Sink

    ghost predicate Valid()
      reads this, tx
    {
      tx.Valid() && tx.capacity.Some?
    }

    ghost function State(): CentralState
      reads this, recovery
    {
      CentralState(generation, linkUp, fullDirty, contextDirty, awaiting, lastAcked, expectedDigests, health,
                   failedAttempts, recovery.State(), retryAt)
    }

    constructor (tx: Sink)
      requires tx.Valid() && tx.capacity.Some?
      ensures Valid() && fresh(recovery) && this.tx == tx && State() == Initial
    {
      this.tx := tx;
      generation, linkUp, fullDirty, contextDirty := 0, false, true, false;
      awaiting, lastAcked, expectedDigests := None, None, None;
      health, failedAttempts, retryAt := Resynchronizing, 0, None;
      recovery := new AttestationRecovery();
    }

    method QueuePreparedSnapshot(prepared: Option<Snapshot>, batteries: BatteryPair, now: nat)
      returns (pending: Option<PendingAck>)
      requires Valid() && fullDirty
      modifies this`generation, tx
      ensures Valid()
      ensures prepared.None? ==> pending.None? && generation == old(generation) && tx.packets == old(tx.packets)
      ensures prepared.Some? ==>
        && generation == NextGeneration(old(State()))
        && (pending.Some? <==> Fits(old(State()), prepared.value, batteries, old(tx.Free())))
        && (pending.Some? ==>
             && pending.value == PendingFor(old(State()), prepared.value, now)
             && tx.packets == old(tx.packets) + EncodeAll(Offered(old(State()), prepared.value, batteries)))
        && (pending.None? ==> tx.packets == old(tx.packets))
    {
      hide Walk, Encode, CountsInRange, ReplicaDigests;
      if prepared.None? { return None; }
      var snapshot := prepared.value;
      var digests := ComputeDigests(snapshot);
      generation := (generation + 1) % 256;
      var queued := TryQueueSnapshot(generation, snapshot, batteries, tx);
      pending := if queued
        then Some(PendingAck(generation, snapshot.revision, FullSnapshot, now + ACK_TIMEOUT, Some(digests)))
        else None;
    }

    method QueuePreparedContextUpdate(prepared: Option<Snapshot>, batteries: BatteryPair, now: nat)
      returns (pending: Option<PendingAck>)
      requires Valid() && !fullDirty
      modifies this`generation, tx
      ensures Valid()
      ensures prepared.None? ==> pending.None? && generation == old(generation) && tx.packets == old(tx.packets)
      ensures prepared.Some? ==>
        && generation == NextGeneration(old(State()))
        && (pending.Some? <==> Fits(old(State()), prepared.value, batteries, old(tx.Free())))
        && (pending.Some? ==>
             && pending.value == PendingFor(old(State()), prepared.value, now)
             && tx.packets == old(tx.packets) + EncodeAll(Offered(old(State()), prepared.value, batteries)))
        && (pending.None? ==> tx.packets == old(tx.packets))
    {
      hide Walk, Encode, CountsInRange, ReplicaDigests;
      if prepared.None? { return None; }
      var snapshot := prepared.value;
      generation := (generation + 1) % 256;
      if Some(snapshot.revision) == lastAcked {
        var taken := tx.Offer(ContextUpdate(generation, snapshot.revision, Replicated(snapshot.context), batteries));
        if !taken { return None; }
        pending := Some(PendingAck(generation, snapshot.revision, ContextOnly, now + ACK_TIMEOUT, None));
      } else {
        var queued := TryQueueSnapshot(generation, snapshot, batteries, tx);
        if !queued { return None; }
        var digests := ComputeDigests(snapshot);
        pending := Some(PendingAck(generation, snapshot.revision, FullSnapshot, now + ACK_TIMEOUT, Some(digests)));
      }
    }

    method ClearElapsedRetry(now: nat)
      modifies this`retryAt
      ensures State() == Refreshed(old(State()), now)
    {
      if retryAt.Some? && retryAt.value <= now { retryAt := None; }
    }

    /** The prologue's send, for whatever the export produced. */
    method SendIfDirty(exported: Option<Snapshot>, batteries: BatteryPair, now: nat) returns (sent: bool)
      requires Valid()
      modifies this, tx
      ensures Valid()
      ensures var wants := old(linkUp && awaiting.None? && (fullDirty || contextDirty) && retryAt.None?
                               && !health.Halted?);
              && (!wants ==> !sent && State() == old(State()))
              && (wants ==>
                   && sent == (exported.Some? && Fits(old(State()), exported.value, batteries, old(tx.Free())))
                   && State() == Sent(old(State()), exported, sent, now))
      ensures tx.packets == old(tx.packets)
                            + if sent then EncodeAll(Offered(old(State()), exported.value, batteries)) else []
      ensures sent && !old(fullDirty) && Some(exported.value.revision) == old(lastAcked) ==>
        tx.packets == old(tx.packets) + [Encode(ContextUpdate((old(generation) + 1) % 256, exported.value.revision,
                                                              Replicated(exported.value.context), batteries))]
      ensures sent && (old(fullDirty) || Some(exported.value.revision) != old(lastAcked)) ==>
        tx.packets == old(tx.packets) + EncodeAll(Walk((old(generation) + 1) % 256, exported.value, batteries))
    {
      hide Walk, Encode, CountsInRange, ReplicaDigests;
      sent := false;
      if linkUp && awaiting.None? && (fullDirty || contextDirty) && retryAt.None? && health != Halted {
        var pending;
        if fullDirty {
          pending := QueuePreparedSnapshot(exported, batteries, now);
        } else {
          pending := QueuePreparedContextUpdate(exported, batteries, now);
        }
        match pending {
          case Some(p) =>
            if p.digests.Some? { expectedDigests := p.digests; }
            awaiting, fullDirty, contextDirty, health := Some(p), false, false, Resynchronizing;
            sent := true;
          case None =>
            retryAt := Some(now + SEND_BACKOFF);
        }
      }
    }

    method OnLink(up: bool)
      modifies this, recovery
      ensures State() == LinkChanged(old(State()), up)
    {
      linkUp, failedAttempts, awaiting, lastAcked := up, 0, None, None;
      fullDirty, contextDirty, retryAt := up, false, None;
      recovery.Reset();
      health := if up then Resynchronizing else Health.Stale;
    }

    method OnLightingChanged()
      modifies this, recovery
      ensures State() == LightingChanged(old(State()))
    {
      fullDirty := true;
      recovery.Reset();
      if linkUp { health := Resynchronizing; }
    }

    method OnContextChanged()
      modifies this`contextDirty
      ensures State() == ContextChanged(old(State()))
    {
      contextDirty := true;
    }

    method OnPacket(data: seq<u8>)
      modifies this, recovery
      ensures State() == Received(old(State()), Decode(data))
    {
      hide Decode;
      match Decode(data) {
        case Ok(Ack(g, r)) =>
          if awaiting.Some? && awaiting.value.generation == g && awaiting.value.revision == r {
            var pending := awaiting.value;
            awaiting := None;
            if pending.kind == FullSnapshot {
              lastAcked := Some(r);
              recovery.SnapshotAcked(r);
            }
            failedAttempts := 0;
            health := Healthy;
          }
        case Ok(Attestation(_, digests)) =>
          var decision := recovery.Observe(expectedDigests, digests);
          match decision {
            case Matching => health := Healthy;
            case Recover => health := Diverged;
            case Stale => health := Health.Stale;
            case Halt => health := Diverged;
          }
        case _ =>
      }
    }

    method OnTimer(now: nat)
      modifies this
      ensures State() == TimedOut(old(State()), now)
    {
      if awaiting.Some? && awaiting.value.deadline <= now {
        awaiting := None;
        fullDirty := linkUp;
        failedAttempts := Min(failedAttempts + 1, 0xffff_ffff);
        if failedAttempts >= RESYNC_FAST_ATTEMPTS {
          retryAt := Some(now + RESYNC_IDLE_BACKOFF);
          health := Health.Stale;
        } else {
          health := Resynchronizing;
        }
      }
    }
  }

  // ---- Whole runs, against any environment ----

  datatype Arm =
    | Send(exported: Option<Snapshot>, accepted: bool)
    | Link(up: bool)
    | Lighting
    | ContextEvent
    | Packet(packet: Decoded)
    | Timer

  datatype Event = Event(at: nat, arm: Arm)

  function AfterSend(c: CentralState, exported: Option<Snapshot>, accepted: bool, now: nat): CentralState {
    var d := Refreshed(c, now);
    if WantsToSend(d) then Sent(d, exported, accepted, now) else d
  }

  function Next(c: CentralState, e: Event): CentralState {
    match e.arm
    case Send(exported, accepted) => AfterSend(c, exported, accepted, e.at)
    case Link(up) => LinkChanged(c, up)
    case Lighting => LightingChanged(c)
    case ContextEvent => ContextChanged(c)
    case Packet(packet) => Received(c, packet)
    case Timer => TimedOut(c, e.at)
  }

  function Run(c: CentralState, events: seq<Event>): CentralState {
    if events == [] then c else Next(Run(c, events[..|events| - 1]), events[|events| - 1])
  }

  /** What every iteration keeps. An outstanding delta is for the acknowledged
      revision; nothing pends on a dead link or during a back-off; and with
      nothing to send and nothing outstanding, something was acknowledged. */
  predicate Sound(c: CentralState) {
    && (c.awaiting.Some? && c.awaiting.value.kind.ContextOnly? ==> c.lastAcked == Some(c.awaiting.value.revision))
    && (c.awaiting.Some? ==> c.linkUp && c.retryAt.None?)
    && (c.awaiting.Some? ==> (c.awaiting.value.kind.FullSnapshot? <==> c.awaiting.value.digests.Some?))
    && (c.linkUp && c.awaiting.None? && !c.fullDirty ==> c.lastAcked.Some?)
    && !c.health.Halted?
  }

  lemma NextKeepsSound(c: CentralState, e: Event)
    requires Sound(c)
    ensures Sound(Next(c, e))
  {
    hide ReplicaDigests, Walk;
  }

  /** In every run, whatever the queue, the link and the peripheral do. */
  lemma {:induction false} AlwaysSound(events: seq<Event>)
    ensures Sound(Run(Initial, events))
  {
    if events != [] {
      AlwaysSound(events[..|events| - 1]);
      NextKeepsSound(Run(Initial, events[..|events| - 1]), events[|events| - 1]);
    }
  }

  // ---- Attestation recovery inside the loop ----

  /** What an event is to the recovery machine. */
  function RecoveryEvent(c: CentralState, e: Event): Option<R.Event> {
    match e.arm
    case Link(_) => Some(Restarted)
    case Lighting => Some(Restarted)
    case Packet(Ok(Attestation(_, digests))) => Some(Observed(c.expectedDigests, digests))
    case Packet(Ok(Ack(g, r))) => if Awaits(c, g, r)
      && c.awaiting.value.kind.FullSnapshot? then Some(Acked(r)) else None
    case _ => None
  }

  function RecoveryEvents(events: seq<Event>): seq<R.Event> {
    if events == [] then []
    else
      var init, e := events[..|events| - 1], events[|events| - 1];
      RecoveryEvents(init) + match RecoveryEvent(Run(Initial, init), e) { case None => [] case Some(r) => [r] }
  }

  lemma RecoveryStep(c: CentralState, e: Event)
    ensures Next(c, e).recovery == match RecoveryEvent(c,
      e) { case None => c.recovery case Some(r) => R.Next(c.recovery, r) }
  {
    hide ReplicaDigests, ObserveStep, Walk;
  }

  /** The loop drives the machine with link edges and lighting events as
      restarts, taken full acknowledgements and attestations, and nothing else;
      so all that holds of its runs holds inside the loop. */
  lemma {:induction false} RecoveryFollows(events: seq<Event>)
    ensures Run(Initial, events).recovery == R.Run(RecoveryEvents(events))
  {
    if events != [] {
      var init, e := events[..|events| - 1], events[|events| - 1];
      RecoveryFollows(init);
      RecoveryStep(Run(Initial, init), e);
      hide RecoveryEvent, Next;
      var before := RecoveryEvents(init);
      match RecoveryEvent(Run(Initial, init), e) {
        case None => assert before + [] == before;
        case Some(r) => assert (before + [r])[..|before|] == before;
      }
    }
  }

  /** In every run of the loop an attestation is a halt exactly when it is a
      mismatch of the revision under recovery, acknowledged since. */
  lemma HaltInsideTheLoop(events: seq<Event>, digests: Digests)
    ensures var c := Run(Initial, events); var seen := RecoveryEvents(events);
            ObserveStep(c.recovery, c.expectedDigests, digests).1 == Halt
            <==> MismatchAt(Observed(c.expectedDigests, digests), digests.revision)
                 && TargetOf(seen) == Some(digests.revision) && Armed(seen)
  {
    RecoveryFollows(events);
    HaltExactly(RecoveryEvents(events), Run(Initial, events).expectedDigests, digests);
    hide Run, RecoveryEvents, ObserveStep, MismatchAt, TargetOf, Armed;
  }

  /** An attestation never changes what is sent or when: it marks the link
      diverged exactly when it is a mismatch of the expected revision. */
  lemma AttestationOnlyMarks(c: CentralState, generation: u8, digests: Digests)
    requires !c.health.Halted?
    ensures var d := Received(c, Ok(Attestation(generation, digests)));
            && d == c.(recovery := d.recovery, health := d.health)
            && (WantsToSend(d) <==> WantsToSend(c)) && (forall s :: SendsDelta(d, s) <==> SendsDelta(c, s))
            && (d.health.Diverged? <==> MismatchAt(Observed(c.expectedDigests, digests), digests.revision))
            && (d.health.Healthy? <==> c.expectedDigests == Some(digests))
  {
  }

  // ---- What is sent, and when ----

  /** An offer the queue takes, in a loop with nothing outstanding, leaves a
      transfer outstanding exactly when the link is up, something is dirty, the
      health is not halted and any back-off is over. Nothing is dirty then. */
  lemma SendsExactly(c: CentralState, s: Snapshot, at: nat)
    requires c.awaiting.None?
    ensures var d := Next(c, Event(at, Send(Some(s), true)));
            && (d.awaiting.Some? <==>
                  && c.linkUp && (c.fullDirty || c.contextDirty) && !c.health.Halted?
                  && (c.retryAt.None? || c.retryAt.value <= at))
            && (d.awaiting.Some? ==>
                  && !d.fullDirty && !d.contextDirty && d.health == Resynchronizing
                  && d.awaiting.value.revision == s.revision && d.awaiting.value.deadline == at + 500
                  && d.awaiting.value.generation == d.generation == (c.generation + 1) % 256
                  && (d.awaiting.value.kind.FullSnapshot? <==> c.fullDirty || c.lastAcked != Some(s.revision))
                  && (d.awaiting.value.kind.FullSnapshot? ==> d.expectedDigests == Some(ReplicaDigests(s)))
                  && (d.awaiting.value.kind.ContextOnly? ==> d.expectedDigests == c.expectedDigests)
                  && d == c.(generation := d.generation, awaiting := d.awaiting, fullDirty := false,
                             contextDirty := false, health := Resynchronizing, retryAt := None,
                             expectedDigests := d.expectedDigests))
            && (d.awaiting.None? ==>
                  d == c.(retryAt := if c.retryAt.Some? && c.retryAt.value <= at then None else c.retryAt))
  {
    hide ReplicaDigests;
  }

  /** A refused offer, or an export that fails, is tried again 50 ms later: all
      that was dirty still is. */
  lemma RefusalKeepsDirty(c: CentralState, exported: Option<Snapshot>, at: nat)
    requires c.awaiting.None? && c.linkUp && (c.fullDirty || c.contextDirty) && !c.health.Halted?
    requires c.retryAt.None? || c.retryAt.value <= at
    ensures Next(c, Event(at, Send(exported, false))) ==
            c.(retryAt := Some(at + 50),
               generation := if exported.Some? then (c.generation + 1) % 256 else c.generation)
  {
  }

  /** A context event on an idle, acknowledged link ends in one packet: the
      context and batteries over the acknowledged revision. */
  lemma ContextEventSends(c: CentralState, s: Snapshot, b: BatteryPair, at: nat)
    requires c.linkUp && c.awaiting.None? && !c.fullDirty && c.retryAt.None? && !c.health.Halted?
    requires c.lastAcked == Some(s.revision)
    ensures var dirty := Next(c, Event(at, ContextEvent));
            && dirty == c.(contextDirty := true)
            && Offered(dirty, s, b) == [ContextUpdate((c.generation + 1) % 256, s.revision, Replicated(s.context), b)]
            && var d := Next(dirty, Event(at, Send(Some(s), true)));
               && d.awaiting == Some(PendingAck((c.generation + 1) % 256, s.revision, ContextOnly, at + 500, None))
               && !d.fullDirty && !d.contextDirty
  {
    hide ReplicaDigests, Walk;
  }

  /** A link edge forgets what was acknowledged, outstanding, counted or waited
      for: once up, the next offer is a full snapshot, at once; while down,
      none is made. */
  lemma LinkEdgeSends(c: CentralState, up: bool, s: Snapshot, edge: nat, at: nat)
    requires !c.health.Halted?
    ensures var d := Next(c, Event(edge, Link(up)));
            && d.lastAcked.None? && d.failedAttempts == 0 && d.recovery == Idle
            && d.generation == c.generation && d.expectedDigests == c.expectedDigests
            && var e := Next(d, Event(at, Send(Some(s), true)));
               if up then
                 && e.awaiting == Some(PendingAck((c.generation + 1) % 256, s.revision, FullSnapshot, at + 500,
                                                  Some(ReplicaDigests(s))))
                 && !e.fullDirty && !e.contextDirty
               else e == d && d.awaiting.None? && !d.fullDirty && !d.contextDirty
  {
    hide ReplicaDigests;
  }

  /** The acknowledgement of the outstanding transfer settles it: a full one
      becomes the acknowledged revision, an update leaves that as it is. Any
      other acknowledgement changes nothing. */
  lemma AckSettles(c: CentralState, g: u8, r: u32)
    ensures var d := Received(c, Ok(Ack(g, r)));
            if c.awaiting.Some? && c.awaiting.value.generation == g && c.awaiting.value.revision == r then
              && d.awaiting.None? && d.failedAttempts == 0 && d.health == Healthy
              && d.lastAcked == (if c.awaiting.value.kind.FullSnapshot? then Some(r) else c.lastAcked)
              && d == c.(awaiting := None, failedAttempts := 0, health := Healthy, lastAcked := d.lastAcked,
                         recovery := d.recovery)
            else d == c
  {
  }

  // ---- What the reported health means ----

  /** The event says that the health is `h`: an answer to the outstanding
      transfer or one that matches, an answer that disagrees, one that cannot
      be compared or too many failures, or a transfer begun or to be begun. */
  predicate Tells(c: CentralState, e: Event, h: Health) {
    match h
    case Healthy =>
      e.arm.Packet? && e.arm.packet.Ok? &&
      (match e.arm.packet.value
       case Ack(g, r) => c.awaiting.Some? && c.awaiting.value.generation == g && c.awaiting.value.revision == r
       case Attestation(_, digests) => c.expectedDigests == Some(digests)
       case _ => false)
    case Diverged =>
      e.arm.Packet? && e.arm.packet.Ok? && e.arm.packet.value.Attestation? && c.expectedDigests.Some?
      && c.expectedDigests.value.revision == e.arm.packet.value.digests.revision
      && c.expectedDigests.value != e.arm.packet.value.digests
    case Stale =>
      || e.arm == Link(false)
      || (e.arm.Packet? && e.arm.packet.Ok? && e.arm.packet.value.Attestation?
          && (c.expectedDigests.None? || c.expectedDigests.value.revision != e.arm.packet.value.digests.revision))
      || (e.arm.Timer? && c.awaiting.Some? && c.awaiting.value.deadline <= e.at && c.failedAttempts >= 4)
    case Resynchronizing =>
      || e.arm == Link(true)
      || (e.arm.Lighting? && c.linkUp)
      || (e.arm.Timer? && c.awaiting.Some? && c.awaiting.value.deadline <= e.at && c.failedAttempts < 4)
      || (e.arm.Send? && c.awaiting.None? && Next(c, e).awaiting.Some?)
    case Halted => false
  }

  lemma AnswerHealth(c: CentralState, e: Event)
    requires e.arm.Packet?
    ensures forall h: Health :: Tells(c, e, h) ==> Next(c, e).health == h
    ensures (forall h: Health :: !Tells(c, e, h)) ==> Next(c, e).health == c.health
  {
    hide LinkChanged, LightingChanged, AfterSend, TimedOut;
    assert Tells(c, e, Next(c, e).health) || Next(c, e).health == c.health;
  }

  lemma OtherHealth(c: CentralState, e: Event)
    requires !e.arm.Packet?
    ensures forall h: Health :: Tells(c, e, h) ==> Next(c, e).health == h
    ensures (forall h: Health :: !Tells(c, e, h)) ==> Next(c, e).health == c.health
  {
    hide Received, PendingFor;
    assert Tells(c, e, Next(c, e).health) || Next(c, e).health == c.health;
  }

  lemma HealthStep(c: CentralState, e: Event)
    ensures forall h: Health :: Tells(c, e, h) ==> Next(c, e).health == h
    ensures (forall h: Health :: !Tells(c, e, h)) ==> Next(c, e).health == c.health
  {
    hide Tells, Next;
    if e.arm.Packet? { AnswerHealth(c, e); } else { OtherHealth(c, e); }
  }

  /** In every run the health is what the latest event told that told any, and
      before there is one, that a transfer is to begin. */
  lemma {:induction false} HealthOverRuns(events: seq<Event>) returns (j: nat)
    ensures j <= |events|
    ensures forall k, h: Health :: j <= k < |events| ==> !Tells(Run(Initial, events[..k]), events[k], h)
    ensures if j == 0 then Run(Initial, events).health == Resynchronizing
            else Tells(Run(Initial, events[..j - 1]), events[j - 1], Run(Initial, events).health)
  {
    hide Tells, Next;
    j := 0;
    if events != [] {
      var n := |events| - 1;
      var init, e := events[..n], events[n];
      HealthStep(Run(Initial, init), e);
      if h: Health :| Tells(Run(Initial, init), e, h) {
        j := n + 1;
      } else {
        j := HealthOverRuns(init);
        forall k, h: Health | j <= k < n + 1 ensures !Tells(Run(Initial, events[..k]), events[k], h) {
          assert events[..k] == if k < n then init[..k] else init;
        }
        assert j > 0 ==> events[..j - 1] == init[..j - 1];
      }
    }
  }
}

/** Concrete runs: how tight the generation window is, and what a commit into a
    full slot lets through. */
module Scenarios {
  import opened Prelude
  import opened Lighting
  import opened Codec
  import opened CodecProofs
  import opened Transaction
  import opened Staging
  import opened Digesting
  import opened Loss
  import opened LossSafety
  import opened Central
  import opened Peripheral
  import opened System
  import opened SystemInvariant
  import opened CleanRound
  import opened Convergence

  /** Some run from `start` ends in `s`. */
  ghost predicate Reaches(start: Snapshot, s: State) {
    exists actions :: Possible(start, actions) && Exec(start, actions) == s
  }

  // ---- One step at a time ----

  lemma StartReached(start: Snapshot)
    ensures Reaches(start, Start(start))
  {
    assert Possible(start, []) && Exec(start, []) == Start(start);
  }

  lemma StepOn(start: Snapshot, s: State, a: Action)
    requires Reaches(start, s) && Windowed(s) && Enabled(s, a)
    ensures Reaches(start, System.Next(s, a))
  {
    hide Windowed, Enabled, System.Next;
    var actions :| Possible(start, actions) && Exec(start, actions) == s;
    var more := actions + [a];
    assert more[..|more| - 1] == actions && more[|more| - 1] == a;
    assert Possible(start, more) && Exec(start, more) == System.Next(s, a);
  }

  /** Fewer than 256 transfers are always inside the window. */
  lemma EarlyIsWindowed(s: State)
    requires |s.trace.log| < 256
    ensures Windowed(s)
  {
  }

  lemma StepReadLink(start: Snapshot, s: State)
    requires Reaches(start, s) && Windowed(s) && s.exported.None?
    ensures Reaches(start, s.(central := LinkChanged(s.central, true), linkUnread := false))
  {
    StepOn(start, s, ReadLink(true));
  }

  lemma StepExport(start: Snapshot, s: State)
    requires Reaches(start, s) && Windowed(s) && s.exported.None? && WantsToSend(s.central)
    ensures Reaches(start, s.(exported := Some(s.declared)))
  {
    StepOn(start, s, Export(true));
  }

  lemma StepQueue(start: Snapshot, s: State, accepted: bool, b: BatteryPair)
    requires Reaches(start, s) && Windowed(s) && s.exported.Some? && (accepted ==> CountsInRange(s.exported.value))
    ensures Reaches(start, Queued(s, accepted, b))
  {
    hide CountsInRange, Queued;
    StepOn(start, s, Queue(accepted, b));
  }

  lemma StepTick(start: Snapshot, s: State, later: nat)
    requires Reaches(start, s) && Windowed(s)
    ensures Reaches(start, s.(now := s.now + later))
  {
    StepOn(start, s, Tick(s.now + later));
  }

  lemma StepRefresh(start: Snapshot, s: State)
    requires Reaches(start, s) && Windowed(s) && s.exported.None?
    ensures Reaches(start, s.(central := Refreshed(s.central, s.now)))
  {
    StepOn(start, s, Refresh);
  }

  lemma StepElapse(start: Snapshot, s: State)
    requires Reaches(start, s) && Windowed(s) && s.exported.None?
    ensures Reaches(start, s.(central := TimedOut(s.central, s.now)))
  {
    StepOn(start, s, Elapse);
  }

  lemma StepEdit(start: Snapshot, s: State, declared: Snapshot)
    requires Reaches(start, s) && Windowed(s)
    ensures Reaches(start, s.(declared := declared, lightingUnread := true))
  {
    StepOn(start, s, Edit(declared));
  }

  lemma StepReboot(start: Snapshot, s: State)
    requires Reaches(start, s) && Windowed(s)
    ensures var t := s.trace.(heard := [], contextGen := 0, bootGen := |s.trace.log|);
            Reaches(start, s.(peripheral := Booted, linkUnread := true, trace := t))
  {
    StepOn(start, s, Reboot);
  }

  lemma StepDeliver(start: Snapshot, s: State, connection: nat)
    requires Reaches(start, s) && Windowed(s) && s.out != [] && Deliverable(s.trace.log, s.out[0])
    ensures Reaches(start, Delivered(s, connection, false))
  {
    hide Deliverable, Delivered;
    StepOn(start, s, Deliver(connection, false));
  }

  // ---- Rounds ----

  /** An idle loop that will send a full snapshot as transfer `n + 1`. */
  predicate Ready(s: State, n: nat) {
    && s.exported.None? && |s.trace.log| == n && s.central.generation == Byte(n)
    && WantsToSend(s.central) && s.central.fullDirty
  }

  /** What a refused offer and the wait after it change. */
  predicate SameButRefusals(a: State, b: State) {
    && b == a.(central := b.central, now := b.now, trace := a.trace.(log := b.trace.log))
  }

  /** One offer the queue refuses, and the 50 ms after it. */
  lemma RefusedRound(start: Snapshot, s: State, b: BatteryPair) returns (next: State)
    requires Reaches(start, s) && Ready(s, |s.trace.log|) && s.peripheral.stage.None?
    requires |s.trace.log| < 256 && forall r :: r in s.back ==> r.gen >= 1
    ensures Reaches(start, next) && Ready(next, |s.trace.log| + 1) && SameButRefusals(s, next)
  {
    hide Reaches;
    var n := |s.trace.log|;
    var exported := s.(exported := Some(s.declared));
    StepExport(start, s);
    var refused := Queued(exported, false, b);
    StepQueue(start, exported, false, b);
    assert refused.exported.None? && |refused.trace.log| == n + 1 && refused.back == s.back;
    assert refused.central ==
           s.central.(generation := NextGeneration(s.central), retryAt := Some(s.now + SEND_BACKOFF));
    assert NextGeneration(s.central) == Byte(n + 1);
    assert SameButRefusals(s, refused);
    hide Queued;
    var later := refused.(now := refused.now + SEND_BACKOFF);
    StepTick(start, refused, SEND_BACKOFF);
    next := later.(central := Refreshed(later.central, later.now));
    StepRefresh(start, later);
  }

  /** As many refusals as it takes to reach transfer `n`. */
  lemma {:induction false} RefusedRounds(start: Snapshot, s: State, n: nat, b: BatteryPair) returns (next: State)
    requires Reaches(start, s) && Ready(s, |s.trace.log|) && s.peripheral.stage.None?
    requires |s.trace.log| <= n <= 256 && forall r :: r in s.back ==> r.gen >= 1
    ensures Reaches(start, next) && Ready(next, n) && SameButRefusals(s, next)
    decreases n
  {
    hide Reaches, WantsToSend;
    if n == |s.trace.log| {
      next := s;
    } else {
      var before := RefusedRounds(start, s, n - 1, b);
      next := RefusedRound(start, before, b);
    }
  }

  /** An offer the queue accepts: the whole walk is on its way. */
  lemma AcceptedOffer(start: Snapshot, s: State, b: BatteryPair) returns (next: State)
    requires Reaches(start, s) && Windowed(s) && Ready(s, |s.trace.log|) && CountsInRange(s.declared)
    ensures var n := |s.trace.log| + 1;
            && Reaches(start, next)
            && next.trace.log == s.trace.log + [Some(Full(s.declared, b))]
            && next == s.(central := next.central, trace := s.trace.(log := next.trace.log),
                          out := s.out + Numbered(n, |Walk(Byte(n), s.declared, b)|))
            && next.central == s.central.(
                 generation := Byte(n), fullDirty := false, contextDirty := false, health := Resynchronizing,
                 expectedDigests := Some(ReplicaDigests(s.declared)),
                 awaiting := Some(PendingAck(Byte(n), s.declared.revision, FullSnapshot, s.now + ACK_TIMEOUT,
                                             Some(ReplicaDigests(s.declared)))))
  {
    hide Reaches, Walk, CountsInRange, ReplicaDigests;
    var exported := s.(exported := Some(s.declared));
    StepExport(start, s);
    next := Queued(exported, true, b);
    StepQueue(start, exported, true, b);
  }

  lemma SignalNoted(t: Provenance, before: PeripheralState, p: InFlight, packet: Decoded, connection: nat)
    ensures var after := Noted(t, before, p, packet);
            && after.log == t.log
            && (after.signalGen == p.gen
                || (after.signalGen == t.signalGen && Processed(before, packet, connection).signal == before.signal))
  {
    hide StageStep, ReplicaDigests, Merged;
  }

  /** The first `k` packets of transfer `g` arrive, and the half processes them. */
  lemma {:induction false} DeliverSome(start: Snapshot, s: State, g: nat, k: nat, connection: nat)
    returns (next: State)
    requires Reaches(start, s) && |s.trace.log| < 256 && Logged(s.trace.log, g)
    requires k <= |PacketsOf(s.trace.log, g)| && s.out == Numbered(g, |PacketsOf(s.trace.log, g)|)
    ensures Reaches(start, next) && next.trace.log == s.trace.log
    ensures var packets := EncodeAll(PacketsOf(s.trace.log, g));
            next == s.(out := s.out[k..], trace := next.trace,
                       peripheral := ProcessAll(s.peripheral, packets[..k], connection))
    ensures next.trace.signalGen == g || next.peripheral.signal == s.peripheral.signal
    decreases k
  {
    hide Reaches, PacketsOf, Encode, Decode, Processed;
    var W := PacketsOf(s.trace.log, g);
    var packets := EncodeAll(W);
    if k == 0 {
      next := s;
    } else {
      var before := DeliverSome(start, s, g, k - 1, connection);
      assert before.out[0] == InFlight(g, k - 1);
      EarlyIsWindowed(before);
      StepDeliver(start, before, connection);
      var packet := Arriving(before.trace.log, before.out[0]);
      SignalNoted(before.trace, before.peripheral, before.out[0], packet, connection);
      hide Noted;
      next := Delivered(before, connection, false);
      assert packets[k - 1] == Encode(W[k - 1]);
      assert packets[..k][..k - 1] == packets[..k - 1];
      assert before.out[1..] == s.out[k..];
    }
  }

  /** An accepted offer of the declared snapshot, delivered whole. */
  lemma WholeRound(start: Snapshot, s: State, b: BatteryPair, connection: nat) returns (next: State)
    requires Reaches(start, s) && Ready(s, |s.trace.log|) && |s.trace.log| < 255 && s.out == []
    requires Queueable(s.declared) && CarriableSnapshot(s.declared, b)
    ensures var n := |s.trace.log| + 1;
            && Reaches(start, next)
            && next.trace.log == s.trace.log + [Some(Full(s.declared, b))]
            && next == s.(central := next.central, trace := next.trace, peripheral := next.peripheral)
            && next.peripheral == Committed(s.peripheral.(stage := None), Staged(Byte(n), Replica(s.declared), b),
                                            connection)
            && (next.trace.signalGen == n || next.peripheral.signal == s.peripheral.signal)
            && next.central == s.central.(
                 generation := Byte(n), fullDirty := false, contextDirty := false, health := Resynchronizing,
                 expectedDigests := Some(ReplicaDigests(s.declared)),
                 awaiting := Some(PendingAck(Byte(n), s.declared.revision, FullSnapshot, s.now + ACK_TIMEOUT,
                                             Some(ReplicaDigests(s.declared)))))
  {
    hide Reaches, Walk, Committed, ReplicaDigests, Replica, CarriableSnapshot, Ready, EncodeAll, ProcessAll;
    var n := |s.trace.log| + 1;
    EarlyIsWindowed(s);
    var sent := AcceptedOffer(start, s, b);
    var W := Walk(Byte(n), s.declared, b);
    assert [] + Numbered(n, |W|) == Numbered(n, |W|);
    assert PacketsOf(sent.trace.log, n) == W;
    next := DeliverSome(start, sent, n, |W|, connection);
    WholeTransfer(s.peripheral, Byte(n), s.declared, b, connection);
    assert EncodeAll(W)[..|W|] == EncodeAll(W);
    assert sent.out[|W|..] == [];
  }

  /** The worker takes the request, the engine accepts, and the acknowledgement
      alone gets into the answer queue. */
  lemma WorkerApplies(start: Snapshot, s: State, held: Snapshot, request: ApplyRequest) returns (next: State)
    requires Reaches(start, s) && |s.trace.log| < 256
    requires s.peripheral.worker.Resting? && s.peripheral.slot == Some(held) && s.peripheral.signal == Some(request)
    ensures Reaches(start, next) && next.trace.log == s.trace.log
    ensures next == s.(peripheral := Settled(s.peripheral), trace := next.trace,
                       back := s.back + [Reply(s.trace.signalGen, Ack(request.generation, request.revision))])
  {
    hide Reaches;
    var woken := s.(peripheral := Woken(s.peripheral), trace := s.trace.(workerGen := s.trace.signalGen));
    EarlyIsWindowed(s);
    StepWake(start, s);
    EarlyIsWindowed(woken);
    StepEngine(start, woken);
    var answered := EngineStep(woken, true, true);
    EarlyIsWindowed(answered);
    StepFinish(start, answered);
    next := Reported(answered, true, false);
  }

  lemma StepWake(start: Snapshot, s: State)
    requires Reaches(start, s) && Windowed(s) && s.peripheral.worker.Resting? && s.peripheral.signal.Some?
    ensures var t := s.trace.(workerGen := s.trace.signalGen);
            Reaches(start, s.(peripheral := Woken(s.peripheral), trace := t))
  {
    StepOn(start, s, Wake);
  }

  lemma StepEngine(start: Snapshot, s: State)
    requires Reaches(start, s) && Windowed(s) && s.peripheral.worker.Asking?
    ensures Reaches(start, EngineStep(s, true, true))
  {
    hide EngineStep;
    StepOn(start, s, EngineAnswer(true, true));
  }

  lemma StepFinish(start: Snapshot, s: State)
    requires Reaches(start, s) && Windowed(s) && s.peripheral.worker.Answered?
    ensures Reaches(start, Reported(s, true, false))
  {
    hide Reported;
    StepOn(start, s, Finish(true, false));
  }

  /** The link comes up, and the declared snapshot goes out as transfer 1. */
  lemma FirstRound(declared: Snapshot, b: BatteryPair, connection: nat) returns (s: State)
    requires Queueable(declared) && CarriableSnapshot(declared, b)
    ensures Reaches(declared, s) && s.trace.log == [Some(Full(declared, b))] && s.trace.signalGen == 1
    ensures var held := Replica(declared).(context := Merged(Replica(declared).context, BOOT_CONTEXT, connection));
            s.peripheral == Booted.(
              batteries := b, context := held.context, slot := Some(held),
              signal := Some(ApplyRequest(1, declared.revision, ReplicaDigests(held))))
    ensures s == State(s.central, declared, None, false, false, [], [], s.peripheral, 0, s.trace)
    ensures s.central.linkUp && s.central.retryAt.None? && s.central.failedAttempts == 0
            && s.central.generation == 1 && s.central.awaiting.Some? && s.central.awaiting.value.deadline == ACK_TIMEOUT
  {
    hide Reaches, CarriableSnapshot;
    var begun := Start(declared);
    StartReached(declared);
    EarlyIsWindowed(begun);
    StepReadLink(declared, begun);
    var up := begun.(central := LinkChanged(begun.central, true), linkUnread := false);
    assert Byte(1) == 1;
    s := WholeRound(declared, up, b, connection);
    assert Replica(declared).revision == declared.revision by { hide RightHalf; }
    hide Replica, ReplicaDigests;
  }

  // ---- The window is tight ----

  /** The first transfer is applied and acknowledged; the acknowledgement stays
      on its way while the peripheral reboots. */
  lemma AppliedThenRebooted(declared: Snapshot, b: BatteryPair, connection: nat) returns (s: State)
    requires Queueable(declared) && CarriableSnapshot(declared, b)
    ensures Reaches(declared, s) && s.trace.log == [Some(Full(declared, b))] && Ready(s, 1)
    ensures s.declared == declared && s.peripheral == Booted && s.out == []
            && s.back == [Reply(1, Ack(1, declared.revision))]
            && s.central.linkUp && !s.lightingUnread && !s.linkUnread
  {
    hide Reaches, CarriableSnapshot, Queueable, Replica, ReplicaDigests, Settled;
    var sent := FirstRound(declared, b, connection);
    var p := sent.peripheral;
    var applied := WorkerApplies(declared, sent, p.slot.value, p.signal.value);
    EarlyIsWindowed(applied);
    StepReboot(declared, applied);
    var rebooted := applied.(peripheral := Booted, linkUnread := true,
                             trace := applied.trace.(heard := [], contextGen := 0, bootGen := 1));
    EarlyIsWindowed(rebooted);
    StepReadLink(declared, rebooted);
    s := rebooted.(central := LinkChanged(rebooted.central, true), linkUnread := false);
  }

  /** The acknowledgement of transfer 1 answers transfer 257. */
  lemma OldAckTaken(s: State, revision: u32)
    requires s.back == [Reply(1, Ack(1, revision))] && s.exported.None? && s.central.awaiting.Some?
    requires var pending := s.central.awaiting.value;
             pending.generation == 1 && pending.revision == revision && pending.kind.FullSnapshot?
    ensures Enabled(s, ReadReply)
    ensures var last := System.Next(s, ReadReply);
            && last == s.(central := last.central, back := [], trace := last.trace)
            && last.central == s.central.(awaiting := None, lastAcked := Some(revision), failedAttempts := 0,
                                          health := Healthy, recovery := last.central.recovery)
  {
    CodecCarries(Ack(1, revision));
    hide Encode, Decode;
  }

  /** The loop's last transfer, and the state it leaves behind. */
  lemma LastOffer(declared: Snapshot, s: State, b: BatteryPair) returns (next: State)
    requires Reaches(declared, s) && Ready(s, 256) && CountsInRange(s.declared)
    requires s.peripheral.stage.None? && s.back == [Reply(1, Ack(1, s.declared.revision))]
    ensures Reaches(declared, next) && |next.trace.log| == 257
    ensures next == s.(central := next.central, out := next.out, trace := next.trace)
    ensures next.central.linkUp && !next.central.fullDirty && next.central.awaiting.Some?
    ensures var pending := next.central.awaiting.value;
            pending.generation == 1 && pending.revision == s.declared.revision && pending.kind.FullSnapshot?
  {
    hide Reaches, CountsInRange, ReplicaDigests, Walk;
    assert Windowed(s);
    next := AcceptedOffer(declared, s, b);
    assert Byte(257) == 1;
  }

  /** One transfer past the window, for every snapshot the codec carries: a run
      leads to a state in which a single acknowledgement is exactly 256 transfers
      old, and reading it leaves the central quiescent, with the declared
      revision acknowledged by a peripheral that has applied nothing. */
  lemma WindowIsTight(declared: Snapshot, b: BatteryPair, connection: nat) returns (s: State)
    requires Queueable(declared) && CarriableSnapshot(declared, b)
    ensures Reaches(declared, s) && Enabled(s, ReadReply)
    ensures |s.back| == 1 && |s.trace.log| == s.back[0].gen + 256 && s.peripheral.stage.None?
    ensures var last := System.Next(s, ReadReply);
            && Quiescent(last) && last.central.lastAcked == Some(declared.revision) == Some(last.declared.revision)
            && last.central.health == Healthy
            && last.peripheral.engine.None? && last.peripheral.lastApplied.None?
  {
    assert CountsInRange(declared);
    var applied := AppliedThenRebooted(declared, b, connection);
    hide Reaches, CarriableSnapshot, Queueable, CountsInRange, Ready, Enabled, System.Next;
    assert Ready(applied, |applied.trace.log|);
    var refused := RefusedRounds(declared, applied, 256, b);
    s := LastOffer(declared, refused, b);
    OldAckTaken(s, declared.revision);
  }

  // ---- A full slot ----

  /** A commit takes context and batteries over whatever the slot holds; slot and
      signal stay as they were exactly when the slot was full. */
  lemma CommitWithoutHandOff(p: PeripheralState, out: Staged, connection: nat)
    ensures var q := Committed(p, out, connection);
            && q.batteries == out.batteries && Replicated(q.context) == Replicated(out.snapshot.context)
            && (p.slot.Some? <==> q == p.(batteries := q.batteries, context := q.context))
            && (p.slot.None? ==> q.slot == Some(out.snapshot.(context := q.context)) && q.signal.Some?)
  {
    hide ReplicaDigests;
  }

  /** It happens in a run: while the worker has not looked at the first transfer
      the declared state is edited, the central times out and sends again, and
      every packet arrives. The second snapshot is dropped, its request never
      made; its context and batteries are in effect. */
  lemma DroppedButInEffect(first: Snapshot, b: BatteryPair, second: Snapshot, b2: BatteryPair, connection: nat)
    returns (s: State)
    requires Queueable(first) && CarriableSnapshot(first, b) && Queueable(second) && CarriableSnapshot(second, b2)
    ensures Reaches(first, s) && Windowed(s)
    ensures s.trace.log == [Some(Full(first, b)), Some(Full(second, b2))] && s.declared == second && s.out == []
    ensures var p := s.peripheral;
            && p.slot.Some? && p.slot.value == Replica(first).(context := p.slot.value.context)
            && Replicated(p.slot.value.context) == Replicated(first.context)
            && p.signal == Some(ApplyRequest(1, first.revision, ReplicaDigests(p.slot.value)))
            && p.batteries == b2 && Replicated(p.context) == Replicated(second.context)
            && p.engine.None? && p.lastApplied.None?
  {
    hide Reaches, CarriableSnapshot, Queueable, ReplicaDigests;
    var sent := FirstRound(first, b, connection);
    ReplicaContext(first, BOOT_CONTEXT, connection);
    ReplicaContext(second, sent.peripheral.context, connection);
    hide Replica, Replicated;
    EarlyIsWindowed(sent);
    StepEdit(first, sent, second);
    var edited := sent.(declared := second, lightingUnread := true);
    EarlyIsWindowed(edited);
    StepTick(first, edited, ACK_TIMEOUT);
    var late := edited.(now := edited.now + ACK_TIMEOUT);
    EarlyIsWindowed(late);
    StepElapse(first, late);
    var retrying := late.(central := TimedOut(late.central, late.now));
    s := WholeRound(first, retrying, b2, connection);
    EarlyIsWindowed(s);
  }
}

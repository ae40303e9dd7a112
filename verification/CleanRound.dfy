/** One undisturbed exchange: the central sends a full snapshot, every packet
    arrives, the engine accepts, and the acknowledgement comes back. */
module CleanRound {
  import opened Prelude
  import opened Lighting
  import opened Codec
  import opened CodecProofs
  import opened Transaction
  import opened Staging
  import opened Digesting
  import opened Recovery
  import opened Loss
  import opened LossSafety
  import opened Central
  import opened Peripheral

  /** Every packet in turn, as the half processes them. */
  function ProcessAll(p: PeripheralState, packets: seq<seq<u8>>, connection: nat): PeripheralState {
    if packets == [] then p
    else Processed(ProcessAll(p, packets[..|packets| - 1], connection), Decode(packets[|packets| - 1]), connection)
  }

  predicate Transactional(ms: seq<Message>) { forall m :: m in ms ==> IsTransactionMessage(m) }

  /** Packets that decode to `ms`, one for one. */
  predicate DecodeTo(packets: seq<seq<u8>>, ms: seq<Message>) {
    |packets| == |ms| && forall i :: 0 <= i < |ms| ==> Decode(packets[i]) == Ok(ms[i])
  }

  /** One transaction packet, already decoded. */
  function Took(p: PeripheralState, m: Message, connection: nat): PeripheralState {
    var result := StageStep(p.stage, m);
    if result.output.None? then p.(stage := result.stage)
    else Committed(p.(stage := result.stage), result.output.value, connection)
  }

  function TookAll(p: PeripheralState, ms: seq<Message>, connection: nat): PeripheralState {
    if ms == [] then p else Took(TookAll(p, ms[..|ms| - 1], connection), ms[|ms| - 1], connection)
  }

  lemma ProcessedIsTook(p: PeripheralState, m: Message, connection: nat)
    requires IsTransactionMessage(m)
    ensures Processed(p, Ok(m), connection) == Took(p, m, connection)
  {
    hide StageStep, Committed;
  }

  lemma {:induction false} ProcessDecoded(p: PeripheralState, packets: seq<seq<u8>>, ms: seq<Message>, connection: nat)
    requires DecodeTo(packets, ms) && Transactional(ms)
    ensures ProcessAll(p, packets, connection) == TookAll(p, ms, connection)
  {
    hide Decode, Processed, Took;
    if ms != [] {
      var init, m := ms[..|ms| - 1], ms[|ms| - 1];
      assert m in ms && forall x :: x in init ==> x in ms;
      ProcessDecoded(p, packets[..|ms| - 1], init, connection);
      ProcessedIsTook(TookAll(p, init, connection), m, connection);
    }
  }

  lemma TookQuietly(p: PeripheralState, m: Message, connection: nat)
    requires StageStep(p.stage, m).output.None?
    ensures Took(p, m, connection) == p.(stage := StageStep(p.stage, m).stage)
  {
    hide StageStep;
  }

  /** As long as nothing is committed, only the stage moves. */
  lemma {:induction false} TookAllQuietly(p: PeripheralState, ms: seq<Message>, connection: nat)
    requires Feed(p.stage, ms).outputs == []
    ensures TookAll(p, ms, connection) == p.(stage := Feed(p.stage, ms).stage)
  {
    if ms != [] {
      var init, m := ms[..|ms| - 1], ms[|ms| - 1];
      assert ms == init + [m];
      FeedSnoc(p.stage, init, m);
      hide StageStep, Took, Feed;
      TookAllQuietly(p, init, connection);
      TookQuietly(p.(stage := Feed(p.stage, init).stage), m, connection);
    }
  }

  lemma TookCommit(p: PeripheralState, m: Message, out: Staged, connection: nat)
    requires StageStep(p.stage, m).output == Some(out)
    ensures Took(p, m, connection) == Committed(p.(stage := None), out, connection)
  {
    CommitEmpties(p.stage, m);
    hide StageStep, Committed;
  }

  /** The last packet of a transaction that commits. */
  lemma TookAllCommit(p: PeripheralState, ms: seq<Message>, out: Staged, connection: nat)
    requires ms != [] && Feed(p.stage, ms[..|ms| - 1]).outputs == [] && Feed(p.stage, ms).outputs == [out]
    ensures TookAll(p, ms, connection) == Committed(p.(stage := None), out, connection)
  {
    var init, m := ms[..|ms| - 1], ms[|ms| - 1];
    assert ms == init + [m];
    FeedSnoc(p.stage, init, m);
    hide StageStep, Took, Feed, Committed;
    var output := StageStep(Feed(p.stage, init).stage, m).output;
    assert [] + [out] == [out];
    assert Feed(p.stage, ms).outputs[0] == out && output == Some(out);
    TookAllQuietly(p, init, connection);
    TookCommit(p.(stage := Feed(p.stage, init).stage), m, out, connection);
  }

  lemma CommitEmpties(stage: Option<Stage>, m: Message)
    ensures StageStep(stage, m).output.Some? ==> StageStep(stage, m).stage.None?
  {
  }

  lemma {:induction false} DecodesOneForOne(ms: seq<Message>)
    requires AllCarriable(ms)
    ensures DecodeTo(EncodeAll(ms), CarriedAll(ms))
  {
    hide Encode, Decode, Carriable, Carried;
    if ms != [] {
      var init, m := ms[..|ms| - 1], ms[|ms| - 1];
      DecodesOneForOne(init);
      EncodeAllPrefix(ms, |ms| - 1);
      CodecCarries(m);
    }
  }

  lemma {:induction false} ConditionalTransactional(g: u8, r: u32, cells: seq<ConditionalCell>)
    ensures Transactional(ReceivedConditional(g, r, cells))
  {
    if cells != [] { ConditionalTransactional(g, r, cells[..|cells| - 1]); }
  }

  lemma WalkTransactional(g: u8, s: Snapshot, b: BatteryPair)
    ensures Transactional(ReceivedWalk(g, s, b))
  {
    CellPacketsKind(g, s.revision, RightOverlay(s.overlay));
    ScenePacketsKind(g, s.revision, RightScenes(s.scenes.cells));
    ConditionalTransactional(g, s.revision, RightConditional(s.conditional));
    hide CellPackets, ScenePackets, ReceivedConditional, RightOverlay, RightScenes, RightConditional;
  }

  /** Everything the central sent for one snapshot, processed in turn: only the
      commit of its replica shows. */
  lemma WholeTransfer(p: PeripheralState, g: u8, s: Snapshot, b: BatteryPair, connection: nat)
    requires Queueable(s) && CarriableSnapshot(s, b)
    ensures ProcessAll(p, EncodeAll(Walk(g, s, b)), connection)
            == Committed(p.(stage := None), Staged(g, Replica(s), b), connection)
  {
    var ms := ReceivedWalk(g, s, b);
    LosslessWire(g, s, b);
    LosslessRefinement(p.stage, g, s, b);
    WalkCarriable(g, s, b);
    DecodesOneForOne(Walk(g, s, b));
    CarriedWalk(g, s, b);
    WalkTransactional(g, s, b);
    hide Walk, ReceivedWalk, Feed, Replica, ReplicaDigests, EncodeAll, CarriableSnapshot, Queueable, Transactional;
    hide DecodeTo, TookAll, ProcessAll;
    ProcessDecoded(p, EncodeAll(Walk(g, s, b)), ms, connection);
    TookAllCommit(p, ms, Staged(g, Replica(s), b), connection);
  }

  /** A half with a free slot: the slot and the signal describe exactly the
      replica. */
  lemma CleanTransfer(p: PeripheralState, g: u8, s: Snapshot, b: BatteryPair, connection: nat)
    requires Queueable(s) && CarriableSnapshot(s, b) && p.slot.None?
    ensures var held := Replica(s).(context := Merged(Replica(s).context, p.context, connection));
            ProcessAll(p, EncodeAll(Walk(g, s, b)), connection) ==
            p.(stage := None, batteries := b, context := held.context, slot := Some(held),
               signal := Some(ApplyRequest(g, s.revision, ReplicaDigests(held))))
  {
    WholeTransfer(p, g, s, b, connection);
    assert Replica(s).revision == s.revision by { hide RightHalf; }
    hide Walk, Replica, ReplicaDigests, EncodeAll, ProcessAll, CarriableSnapshot, Queueable;
  }

  /** The half after the worker and an accepting engine are done with it. */
  function Settled(p: PeripheralState): PeripheralState
    requires p.worker.Resting? && p.signal.Some?
  {
    Finished(EngineAnswered(Woken(p), true, true))
  }

  lemma SettledFacts(q: PeripheralState, held: Snapshot, request: ApplyRequest)
    requires q.worker.Resting? && q.slot == Some(held) && q.signal == Some(request)
    ensures Settled(q) == q.(slot := None, signal := None, engine := Some(held), lastApplied := Some(request.revision),
                             lastDigests := Some(request.digests))
  {
  }

  lemma AckedFacts(c: CentralState, s: Snapshot, now: nat)
    requires WantsToSend(c) && !SendsDelta(c, s)
    ensures var back := Received(Sent(c, Some(s), true, now), Ok(Ack(NextGeneration(c), s.revision)));
            && back.awaiting.None? && !back.fullDirty && !back.contextDirty && back.health == Healthy
            && back.lastAcked == Some(s.revision)
  {
    hide ReplicaDigests;
  }

  /** After a clean round the acknowledgement the worker sends is the one the
      central waits for: nothing is outstanding or dirty, both sides name the
      sent revision, and the engine holds the replica. */
  lemma CleanRoundConverges(c: CentralState, p: PeripheralState, s: Snapshot, b: BatteryPair, now: nat, connection: nat)
    requires WantsToSend(c) && !SendsDelta(c, s)
    requires Queueable(s) && CarriableSnapshot(s, b)
    requires p.slot.None? && p.worker.Resting?
    ensures var q := ProcessAll(p, EncodeAll(Offered(c, s, b)), connection);
            && q.worker.Resting? && q.signal.Some?
            && var done := Settled(q);
               var back := Received(Sent(c, Some(s), true, now),
                                    Decode(Encode(Ack(q.signal.value.generation, q.signal.value.revision))));
               && back.awaiting.None? && !back.fullDirty && !back.contextDirty && back.health == Healthy
               && back.lastAcked == Some(s.revision) == done.lastApplied
               && done.engine == Some(Replica(s).(context := done.context))
               && done.batteries == b && Replicated(done.context) == Replicated(s.context)
               && done.slot.None? && done.signal.None? && done.worker.Resting? && done.stage.None?
  {
    var g := NextGeneration(c);
    var held := Replica(s).(context := Merged(Replica(s).context, p.context, connection));
    CleanTransfer(p, g, s, b, connection);
    CodecCarries(Ack(g, s.revision));
    AckedFacts(c, s, now);
    assert Offered(c, s, b) == Walk(g, s, b);
    ReplicaContext(s, p.context, connection);
    hide Walk, Encode, Decode, EncodeAll, Replica, ReplicaDigests, ProcessAll, CarriableSnapshot, Queueable, Merged,
      Replicated;
    hide Settled, Received, Sent, Offered;
    var q := ProcessAll(p, EncodeAll(Walk(g, s, b)), connection);
    SettledFacts(q, held, ApplyRequest(g, s.revision, ReplicaDigests(held)));
  }

  /** A context update over the applied revision is taken and answered: context
      and batteries are those sent, and nothing else of the peripheral moves. */
  lemma DeltaTaken(p: PeripheralState, g: u8, s: Snapshot, b: BatteryPair, connection: nat)
    requires p.lastApplied == Some(s.revision) && CarriableBattery(b.left) && CarriableBattery(b.right)
    ensures var packet := Decode(Encode(ContextUpdate(g, s.revision, Replicated(s.context), b)));
            && Answer(p, packet) == Some(Ack(g, s.revision))
            && Processed(p, packet, connection) ==
               p.(batteries := b,
                  context := p.context.(indicators := s.context.indicators, powered := s.context.powered,
                                        bondedSlots := s.context.bondedSlots))
  {
    hide Encode, Decode;
    CodecCarries(ContextUpdate(g, s.revision, Replicated(s.context), b));
  }

  lemma DeltaOffered(c: CentralState, s: Snapshot, b: BatteryPair, now: nat)
    requires c.linkUp && c.awaiting.None? && !c.fullDirty && c.retryAt.None? && !c.health.Halted?
    requires c.lastAcked == Some(s.revision)
    ensures var g, dirty := (c.generation + 1) % 256, ContextChanged(c);
            && WantsToSend(dirty)
            && Offered(dirty, s, b) == [ContextUpdate(g, s.revision, Replicated(s.context), b)]
            && var back := Received(Sent(dirty, Some(s), true, now), Ok(Ack(g, s.revision)));
               && back.awaiting.None? && !back.fullDirty && !back.contextDirty && back.health == Healthy
               && back.lastAcked == Some(s.revision) && back.failedAttempts == 0
  {
    hide Walk, ReplicaDigests;
  }

  /** One undisturbed context update, from the event on: the loop sends one
      packet, the peripheral takes it, and its acknowledgement leaves the loop
      healthy and idle again. */
  lemma CleanDelta(c: CentralState, p: PeripheralState, s: Snapshot, b: BatteryPair, now: nat, connection: nat)
    requires c.linkUp && c.awaiting.None? && !c.fullDirty && c.retryAt.None? && !c.health.Halted?
    requires c.lastAcked == Some(s.revision) == p.lastApplied
    requires CarriableBattery(b.left) && CarriableBattery(b.right)
    ensures var dirty := ContextChanged(c);
            WantsToSend(dirty) && |Offered(dirty, s, b)| == 1
    ensures var packet := Decode(Encode(Offered(ContextChanged(c), s, b)[0]));
            var q := Processed(p, packet, connection);
            && q.batteries == b && Replicated(q.context) == Replicated(s.context)
            && q == p.(batteries := b, context := q.context) && Answer(p, packet).Some?
    ensures var packet := Decode(Encode(Offered(ContextChanged(c), s, b)[0]));
            var back := Received(Sent(ContextChanged(c), Some(s), true, now), Decode(Encode(Answer(p, packet).value)));
            && back.awaiting.None? && !back.fullDirty && !back.contextDirty && back.health == Healthy
            && back.lastAcked == Some(s.revision) && back.failedAttempts == 0
  {
    hide Encode, Decode, Walk, ReplicaDigests, Processed, Answer, Received, Sent, Offered, ContextChanged;
    var g := (c.generation + 1) % 256;
    DeltaOffered(c, s, b, now);
    DeltaTaken(p, g, s, b, connection);
    CodecCarries(Ack(g, s.revision));
  }

  lemma ReplicaContext(s: Snapshot, own: LightingContext, connection: nat)
    ensures Replicated(Merged(Replica(s).context, own, connection)) == Replicated(s.context)
    ensures Replica(s).revision == s.revision
  {
    hide RightConditional, RightOverlay, RightScenes;
  }
}

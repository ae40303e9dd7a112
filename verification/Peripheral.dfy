/** The peripheral's half of replication: packet processing, the one-place
    hand-off to the engine, and the worker that acknowledges. */
module Peripheral {
  import opened Prelude
  import opened Lighting
  import opened Codec
  import opened Transaction
  import opened Staging
  import opened Digesting

  datatype ApplyRequest = ApplyRequest(generation: u8, revision: u32, digests: Digests)

  /** The worker waits for a request, then for the engine, then reports. */
  datatype Worker = Resting | Asking(request: ApplyRequest) | Answered(request: ApplyRequest, accepted: bool)

  /** `slot` and `signal` are the hand-off; `engine` is the snapshot the engine
      accepted last; the rest are the half's static cells. */
  datatype PeripheralState = PeripheralState(
    stage: Option<Stage>,
    slot: Option<Snapshot>,
    signal: Option<ApplyRequest>,
    worker: Worker,
    engine: Option<Snapshot>,
    lastApplied: Option<u32>,
    lastDigests: Option<Digests>,
    context: LightingContext,
    batteries: BatteryPair)

  const BOOT_CONTEXT: LightingContext

  const Booted := PeripheralState(None, None, None, Resting, None, None, None, BOOT_CONTEXT,
                                  BatteryPair(Unavailable, Unavailable))

  // ---- One function per step ----

  /** Layers and connection are this half's own; the rest comes from the central. */
  function Merged(context: LightingContext, own: LightingContext, connection: nat): LightingContext {
    context.(layers := own.layers, connection := connection)
  }

  /** A committed snapshot. Batteries and context take effect at once; the
      snapshot itself only if the slot is free, and is dropped otherwise. */
  function Committed(p: PeripheralState, out: Staged, connection: nat): PeripheralState {
    var snapshot := out.snapshot.(context := Merged(out.snapshot.context, p.context, connection));
    var q := p.(batteries := out.batteries, context := snapshot.context);
    if q.slot.Some? then q
    else q.(slot := Some(snapshot),
            signal := Some(ApplyRequest(out.generation, snapshot.revision, ReplicaDigests(snapshot))))
  }

  predicate IsDiagnostic(m: Message) {
    m.EffectHit? || m.ReplicaProbe? || m.StatusRequest? || m.FrameChunkRequest?
  }

  /** A delta is taken only over the revision it was made for. */
  function Updated(p: PeripheralState, m: Message): PeripheralState
    requires m.ContextUpdate?
  {
    if p.lastApplied == Some(m.revision) then
      p.(batteries := m.batteries, context := m.context.ApplyTo(p.context))
    else p
  }

  function Processed(p: PeripheralState, packet: Decoded, connection: nat): PeripheralState {
    match packet
    case Err(_) => p
    case Ok(m) =>
      if IsDiagnostic(m) then p
      else if m.ContextUpdate? then Updated(p, m)
      else
        var result := StageStep(p.stage, m);
        var q := p.(stage := result.stage);
        if result.output.None? then q else Committed(q, result.output.value, connection)
  }

  /** The acknowledgement a packet is owed at once: that of an accepted delta. */
  function Answer(p: PeripheralState, packet: Decoded): Option<Message> {
    if packet.Ok? && packet.value.ContextUpdate? && p.lastApplied == Some(packet.value.revision)
    then Some(Ack(packet.value.generation, packet.value.revision))
    else None
  }

  function Woken(p: PeripheralState): PeripheralState
    requires p.worker.Resting? && p.signal.Some?
  {
    p.(worker := Asking(p.signal.value), signal := None)
  }

  /** The engine's answer. Taking the slot and accepting its snapshot are one
      step; a refusal may leave the slot as it was. */
  function EngineAnswered(p: PeripheralState, accept: bool, take: bool): PeripheralState
    requires p.worker.Asking?
  {
    if accept && p.slot.Some? then
      p.(engine := p.slot, slot := None, worker := Answered(p.worker.request, true))
    else
      p.(slot := if take then None else p.slot, worker := Answered(p.worker.request, false))
  }

  function Finished(p: PeripheralState): PeripheralState
    requires p.worker.Answered?
  {
    var q := p.(worker := Resting);
    if p.worker.accepted
    then q.(lastApplied := Some(p.worker.request.revision), lastDigests := Some(p.worker.request.digests))
    else q
  }

  // ---- The half as the firmware runs it ----

  class PeripheralReplication {
    const stage: SnapshotStage
    const tx: Sink
    var slot: Option<Snapshot>
    var signal: Option<ApplyRequest>
    var worker: Worker
    var engine: Option<Snapshot>
    var lastApplied: Option<u32>
    var lastDigests: Option<Digests>
    var context: LightingContext
    var batteries: BatteryPair

    ghost predicate Valid()
      reads this, tx
    {
      tx.Valid() && tx.capacity.Some?
    }

    ghost function State(): PeripheralState
      reads this, stage
    {
      PeripheralState(stage.stage, slot, signal, worker, engine, lastApplied, lastDigests, context, batteries)
    }

    constructor (tx: Sink)
      requires tx.Valid() && tx.capacity.Some?
      ensures Valid() && fresh(stage) && this.tx == tx && State() == Booted
    {
      this.tx := tx;
      stage := new SnapshotStage();
      slot, signal, worker, engine := None, None, Resting, None;
      lastApplied, lastDigests := None, None;
      context, batteries := BOOT_CONTEXT, BatteryPair(Unavailable, Unavailable);
    }

    /** What a queue holds after being offered an optional message. */
    function AfterOffer(queue: seq<seq<u8>>, m: Option<Message>): seq<seq<u8>> {
      if m.Some? && |queue| < tx.capacity.UnwrapOr(0) then queue + [Encode(m.value)] else queue
    }

    /** Diagnostics only enter an empty queue. */
    method TrySendDiagnostic(m: Message)
      requires Valid()
      modifies tx
      ensures Valid()
      ensures tx.packets == if old(tx.packets) == [] then AfterOffer([], Some(m)) else old(tx.packets)
    {
      hide Encode;
      if tx.Free() == tx.capacity.value && tx.Free() > 0 {
        var _ := tx.Offer(m);
      }
    }

    method TrySendAttestation(generation: u8)
      requires Valid()
      modifies tx
      ensures Valid()
      ensures tx.packets == if old(tx.packets) == [] && lastDigests.Some?
                            then AfterOffer([], Some(Attestation(generation, lastDigests.value)))
                            else old(tx.packets)
    {
      hide Encode;
      if lastDigests.Some? {
        TrySendDiagnostic(Attestation(generation, lastDigests.value));
      }
    }

    method Process(data: seq<u8>, connection: nat)
      requires Valid()
      modifies this, stage, tx
      ensures Valid()
      ensures State() == Processed(old(State()), Decode(data), connection)
      ensures !(Decode(data).Ok? && Decode(data).value.ReplicaProbe?) ==>
                tx.packets == AfterOffer(old(tx.packets), Answer(old(State()), Decode(data)))
      ensures Decode(data).Ok? && Decode(data).value.ReplicaProbe? ==>
                tx.packets == if old(tx.packets) == [] && lastDigests.Some?
                              then AfterOffer([], Some(Attestation(Decode(data).value.generation, lastDigests.value)))
                              else old(tx.packets)
    {
      hide Decode, Encode, StageStep, ReplicaDigests;
      var decoded := Decode(data);
      if decoded.Err? { return; }
      var m := decoded.value;
      if m.ReplicaProbe? {
        TrySendAttestation(m.generation);
        return;
      }
      if m.EffectHit? || m.StatusRequest? || m.FrameChunkRequest? { return; }
      if m.ContextUpdate? {
        if lastApplied == Some(m.revision) {
          batteries := m.batteries;
          context := m.context.ApplyTo(context);
          var _ := tx.Offer(Ack(m.generation, m.revision));
        }
        return;
      }
      var output := stage.Apply(m);
      if output.None? { return; }
      var snapshot := output.value.snapshot;
      snapshot := snapshot.(context := Merged(snapshot.context, context, connection));
      var digests := ComputeDigests(snapshot);
      batteries, context := output.value.batteries, snapshot.context;
      if slot.Some? { return; }
      slot := Some(snapshot);
      signal := Some(ApplyRequest(output.value.generation, snapshot.revision, digests));
    }

    method TakeRequest()
      requires worker.Resting? && signal.Some?
      modifies this
      ensures State() == Woken(old(State()))
    {
      worker, signal := Asking(signal.value), None;
    }

    /** What the worker does once the engine has answered. */
    method FinishApply()
      requires Valid() && worker.Answered?
      modifies this, tx
      ensures Valid()
      ensures State() == Finished(old(State()))
      ensures var request := old(worker.request);
              var acked := AfterOffer(old(tx.packets), Some(Ack(request.generation, request.revision)));
              tx.packets ==
                if !old(worker.accepted) || acked == old(tx.packets) then old(tx.packets)
                else AfterOffer(acked, Some(Attestation(request.generation, request.digests)))
    {
      hide Encode;
      var request, accepted := worker.request, worker.accepted;
      worker := Resting;
      if accepted {
        lastApplied := Some(request.revision);
        lastDigests := Some(request.digests);
        ghost var before := tx.packets;
        var taken := tx.Offer(Ack(request.generation, request.revision));
        if !taken { return; }
        assert |tx.packets| == |before| + 1;
        var _ := tx.Offer(Attestation(request.generation, lastDigests.value));
      }
    }

    method OnLink()
      modifies stage
      ensures State() == old(State()).(stage := None)
    {
      stage.Reset();
    }
  }
}

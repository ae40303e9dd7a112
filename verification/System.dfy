/** Both halves and the link between them: a lossy pipe each way that never
    reorders. Beside the state itself a provenance records, with unbounded
    generations, where everything came from; no step depends on it. */
module System {
  import opened Prelude
  import opened Lighting
  import opened Codec
  import opened Transaction
  import opened Staging
  import opened Digesting
  import opened Loss
  import opened LossSafety
  import C = Central
  import P = Peripheral
  import opened Central
  import opened Peripheral

  datatype Transfer =
    | Full(snapshot: Snapshot, batteries: BatteryPair)
    | Delta(revision: u32, context: ReplicatedContext, batteries: BatteryPair)

  /** Entry `g - 1` is what generation `g` queued, `None` if it was refused. */
  type Log = seq<Option<Transfer>>

  /** The generation byte of a true generation. */
  function Byte(g: nat): u8 { g % 256 }

  predicate Logged(log: Log, g: nat) { 0 < g <= |log| && log[g - 1].Some? }

  predicate FullAt(log: Log, g: nat) { Logged(log, g) && log[g - 1].value.Full? }

  function SnapshotAt(log: Log, g: nat): Snapshot
    requires FullAt(log, g)
  {
    log[g - 1].value.snapshot
  }

  function BatteriesAt(log: Log, g: nat): BatteryPair
    requires Logged(log, g)
  {
    log[g - 1].value.batteries
  }

  function ContextAt(log: Log, g: nat): ReplicatedContext
    requires Logged(log, g)
  {
    if log[g - 1].value.Full? then Replicated(log[g - 1].value.snapshot.context) else log[g - 1].value.context
  }

  function PacketsOf(log: Log, g: nat): seq<Message>
    requires Logged(log, g)
  {
    match log[g - 1].value
    case Full(s, b) => Walk(Byte(g), s, b)
    case Delta(r, c, b) => [ContextUpdate(Byte(g), r, c, b)]
  }

  /** The latest full snapshot, the latest transfer of any kind; 0 if none. */
  function LatestFull(log: Log): (g: nat)
    ensures g <= |log|
    ensures g > 0 ==> FullAt(log, g)
  {
    if log == [] then 0
    else if FullAt(log, |log|) then |log|
    else LatestFull(log[..|log| - 1])
  }

  function LatestSent(log: Log): (g: nat)
    ensures g <= |log|
    ensures g > 0 ==> Logged(log, g)
  {
    if log == [] then 0
    else if Logged(log, |log|) then |log|
    else LatestSent(log[..|log| - 1])
  }

  /** Packet number `idx` of transfer `gen`. */
  datatype InFlight = InFlight(gen: nat, idx: nat)

  datatype Reply = Reply(gen: nat, message: Message)

  /** `rxGen` and `rxPos`: everything before that packet has been delivered or
      lost. `heard`: what reached the stage of `stageGen`. The other generations
      are those of the cells they are named after; `applied` is everything the
      engine ever accepted, `refused` everything a full slot dropped. */
  datatype Provenance = Provenance(
    log: Log,
    rxGen: nat, rxPos: nat,
    stageGen: nat, heard: seq<Message>,
    slotGen: nat, signalGen: nat, workerGen: nat, engineGen: nat, lastGen: nat, contextGen: nat,
    applied: map<nat, Snapshot>,
    refused: set<nat>,
    bootGen: nat,
    ackedGen: nat, settledGen: nat)

  /** `declared` is the central engine's current state, `exported` the central's
      own slot between an export and its use; the unread flags say that an
      engine change or a link edge has not reached the replication loop yet. */
  datatype State = State(
    central: CentralState,
    declared: Snapshot,
    exported: Option<Snapshot>,
    lightingUnread: bool,
    linkUnread: bool,
    out: seq<InFlight>,
    back: seq<Reply>,
    peripheral: PeripheralState,
    now: nat,
    trace: Provenance)

  datatype Action =
    // The central's loop.
    | Refresh
    | Export(ok: bool)
    | Queue(accepted: bool, batteries: BatteryPair)
    | ReadLink(up: bool)
    | ReadLighting
    | ReadContext
    | ReadReply
    | Elapse
    // Its surroundings.
    | Edit(declared: Snapshot)
    | Adjust(context: LightingContext, sampleTimeMs: u64)
    | LinkEdge
    | Tick(now: nat)
    // The link.
    | LoseOut(at: nat)
    | LoseBack(at: nat)
    // The peripheral.
    | Deliver(connection: nat, answered: bool)
    | Wake
    | EngineAnswer(accept: bool, take: bool)
    | Finish(acked: bool, attested: bool)
    | Heartbeat
    | LayerEdge(layers: LayerState)
    | PeripheralLink
    | Reboot

  predicate Enabled(s: State, a: Action) {
    match a
    case Export(_) => s.exported.None? && WantsToSend(s.central)
    case Queue(accepted, _) =>
      && s.exported.Some?
      && (accepted ==> SendsDelta(s.central, s.exported.value) || CountsInRange(s.exported.value))
    case Refresh => s.exported.None?
    case ReadLink(_) => s.exported.None?
    case ReadLighting => s.exported.None?
    case ReadContext => s.exported.None?
    case ReadReply => s.exported.None? && s.back != []
    case Elapse => s.exported.None?
    case Tick(now) => s.now <= now
    case LoseOut(at) => at < |s.out|
    case LoseBack(at) => at < |s.back|
    case Deliver(_, _) => s.out != [] && Deliverable(s.trace.log, s.out[0])
    case Wake => s.peripheral.worker.Resting? && s.peripheral.signal.Some?
    case EngineAnswer(_, _) => s.peripheral.worker.Asking?
    case Finish(_, _) => s.peripheral.worker.Answered?
    case _ => true
  }

  /** The packet exists; true of everything in flight in a reachable state. */
  predicate Deliverable(log: Log, p: InFlight) { Logged(log, p.gen) && p.idx < |PacketsOf(log, p.gen)| }

  function Arriving(log: Log, p: InFlight): Decoded
    requires Deliverable(log, p)
  {
    Decode(Encode(PacketsOf(log, p.gen)[p.idx]))
  }

  // ---- Queueing ----

  function TransferOf(c: CentralState, s: Snapshot, b: BatteryPair): Transfer {
    if SendsDelta(c, s) then Delta(s.revision, Replicated(s.context), b) else Full(s, b)
  }

  function Numbered(g: nat, n: nat): seq<InFlight> {
    seq(n, i requires 0 <= i < n => InFlight(g, i))
  }

  function Queued(s: State, accepted: bool, b: BatteryPair): State
    requires s.exported.Some?
  {
    var snapshot := s.exported.value;
    var log := s.trace.log + [if accepted then Some(TransferOf(s.central, snapshot, b)) else None];
    s.(central := Sent(s.central, s.exported, accepted, s.now),
       exported := None,
       out := if accepted then s.out + Numbered(|log|, |PacketsOf(log, |log|)|) else s.out,
       trace := s.trace.(log := log))
  }

  // ---- Replies ----

  function Heeded(s: State): State
    requires s.back != []
  {
    var reply := s.back[0];
    var packet := Decode(Encode(reply.message));
    var central := C.Received(s.central, packet);
    var settled := s.central.awaiting.Some? && central.awaiting.None?;
    s.(central := central,
       back := s.back[1..],
       trace := s.trace.(
         ackedGen := if settled && s.central.awaiting.value.kind.FullSnapshot? then |s.trace.log| else s.trace.ackedGen,
         settledGen := if settled then |s.trace.log| else s.trace.settledGen))
  }

  // ---- Deliveries ----

  /** Where things come from after packet `p` arrived as `m`. */
  function Noted(t: Provenance, before: PeripheralState, p: InFlight, packet: Decoded): Provenance {
    var u := t.(rxGen := p.gen, rxPos := p.idx + 1);
    match packet
    case Err(_) => u
    case Ok(m) =>
      if m.ContextUpdate? then
        if before.lastApplied == Some(m.revision) then u.(contextGen := p.gen) else u
      else
        var v := u.(stageGen := p.gen, heard := (if t.stageGen == p.gen then t.heard else []) + [m]);
        if StageStep(before.stage, m).output.None? then v
        else if before.slot.Some? then v.(contextGen := p.gen, refused := v.refused + {p.gen})
        else v.(contextGen := p.gen, slotGen := p.gen, signalGen := p.gen)
  }

  function Delivered(s: State, connection: nat, answered: bool): State
    requires s.out != [] && Deliverable(s.trace.log, s.out[0])
  {
    var p := s.out[0];
    var packet := Arriving(s.trace.log, p);
    var answer := Answer(s.peripheral, packet);
    s.(out := s.out[1..],
       peripheral := Processed(s.peripheral, packet, connection),
       back := if answered && answer.Some? then s.back + [Reply(p.gen, answer.value)] else s.back,
       trace := Noted(s.trace, s.peripheral, p, packet))
  }

  function EngineStep(s: State, accept: bool, take: bool): State
    requires s.peripheral.worker.Asking?
  {
    var t := s.trace;
    s.(peripheral := EngineAnswered(s.peripheral, accept, take),
       trace := if accept && s.peripheral.slot.Some?
                then t.(applied := t.applied[t.slotGen := s.peripheral.slot.value], engineGen := t.slotGen)
                else t)
  }

  /** The worker reports; the attestation follows only a queued acknowledgement. */
  function Reported(s: State, acked: bool, attested: bool): State
    requires s.peripheral.worker.Answered?
  {
    var request := s.peripheral.worker.request;
    var g := s.trace.workerGen;
    var ack := Reply(g, Ack(request.generation, request.revision));
    var attestation := Reply(g, Attestation(request.generation, request.digests));
    var told := s.(peripheral := Finished(s.peripheral));
    if !s.peripheral.worker.accepted then told
    else
      told.(back := s.back + (if !acked then [] else if !attested then [ack] else [ack, attestation]),
            trace := s.trace.(lastGen := g))
  }

  function Attested(s: State): State {
    if s.peripheral.lastDigests.None? then s
    else s.(back := s.back + [Reply(s.trace.lastGen, Attestation(0, s.peripheral.lastDigests.value))])
  }

  function Dropped<T>(queue: seq<T>, at: nat): seq<T>
    requires at < |queue|
  {
    queue[..at] + queue[at + 1..]
  }

  function Next(s: State, a: Action): State
    requires Enabled(s, a)
  {
    match a
    case Refresh => s.(central := Refreshed(s.central, s.now))
    case Export(ok) =>
      if ok then s.(exported := Some(s.declared)) else s.(central := Sent(s.central, None, false, s.now))
    case Queue(accepted, b) => Queued(s, accepted, b)
    case ReadLink(up) => s.(central := LinkChanged(s.central, up), linkUnread := false)
    case ReadLighting => s.(central := LightingChanged(s.central), lightingUnread := false)
    case ReadContext => s.(central := ContextChanged(s.central))
    case ReadReply => Heeded(s)
    case Elapse => s.(central := TimedOut(s.central, s.now))
    case Edit(declared) => s.(declared := declared, lightingUnread := true)
    case Adjust(context, t) => s.(declared := s.declared.(context := context, sampleTimeMs := t))
    case LinkEdge => s.(linkUnread := true)
    case Tick(now) => s.(now := now)
    case LoseOut(at) => s.(out := Dropped(s.out, at))
    case LoseBack(at) => s.(back := Dropped(s.back, at))
    case Deliver(connection, answered) => Delivered(s, connection, answered)
    case Wake => s.(peripheral := Woken(s.peripheral), trace := s.trace.(workerGen := s.trace.signalGen))
    case EngineAnswer(accept, take) => EngineStep(s, accept, take)
    case Finish(acked, attested) => Reported(s, acked, attested)
    case Heartbeat => Attested(s)
    case LayerEdge(layers) =>
      s.(peripheral := s.peripheral.(context := s.peripheral.context.(layers := layers)))
    case PeripheralLink => s.(peripheral := s.peripheral.(stage := None), trace := s.trace.(heard := []))
    case Reboot =>
      s.(peripheral := Booted, linkUnread := true,
         trace := s.trace.(heard := [], contextGen := 0, bootGen := |s.trace.log|))
  }

  function Start(declared: Snapshot): State {
    State(C.Initial, declared, None, false, false, [], [], Booted, 0,
          Provenance([], 0, 0, 0, [], 0, 0, 0, 0, 0, 0, map[], {}, 0, 0, 0))
  }

  // ---- Runs ----

  /** One byte of generation is enough while nothing the two halves still
      compare is 256 transfers old: the open stage and the acknowledgements. */
  predicate Windowed(s: State) {
    && (s.peripheral.stage.Some? ==> |s.trace.log| < s.trace.stageGen + 256)
    && (forall r :: r in s.back ==> |s.trace.log| < r.gen + 256)
  }

  ghost predicate Possible(start: Snapshot, actions: seq<Action>)
    decreases |actions|, 0
  {
    actions == [] ||
    var init, a := actions[..|actions| - 1], actions[|actions| - 1];
    Possible(start, init) && Windowed(Exec(start, init)) && Enabled(Exec(start, init), a)
  }

  ghost function Exec(start: Snapshot, actions: seq<Action>): State
    requires Possible(start, actions)
    decreases |actions|, 1
  {
    if actions == [] then Start(start)
    else Next(Exec(start, actions[..|actions| - 1]), actions[|actions| - 1])
  }
}

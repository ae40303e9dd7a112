/** The context over whole runs: which of it is the peripheral's own, and when
    the rest agrees with the central's. */
module ContextRuns {
  import opened Prelude
  import opened Lighting
  import opened Codec
  import opened Transaction
  import opened Staging
  import opened Digesting
  import opened Central
  import opened Peripheral
  import opened System
  import opened SystemInvariant
  import opened SystemDelivery
  import opened Convergence

  // ---- The peripheral's own part ----

  /** No packet touches the half's own layers. */
  lemma OwnLayersStay(p: PeripheralState, packet: Decoded, connection: nat)
    ensures Processed(p, packet, connection).context.layers == p.context.layers
  {
    hide StageStep, ReplicaDigests;
  }

  /** A commit takes its context from the staged snapshot, but for the layers,
      which stay the half's own, and the connection, which is the local one; a
      free slot gets the snapshot with exactly that context, and the request
      its digests. */
  lemma CommitContext(p: PeripheralState, m: Message, connection: nat)
    requires m.Commit? && StageStep(p.stage, m).output.Some?
    ensures var out := StageStep(p.stage, m).output.value;
            var q := Processed(p, Ok(m), connection);
            && q.context.layers == p.context.layers && q.context.connection == connection
            && q.context == out.snapshot.context.(layers := q.context.layers, connection := q.context.connection)
            && q.batteries == out.batteries
            && (p.slot.None? ==>
                 && q.slot == Some(out.snapshot.(context := q.context))
                 && q.signal == Some(ApplyRequest(out.generation, out.snapshot.revision,
                                                  ReplicaDigests(out.snapshot.(context := q.context)))))
            && (p.slot.Some? ==> q.slot == p.slot && q.signal == p.signal)
            && q == p.(stage := q.stage, slot := q.slot, signal := q.signal, context := q.context,
                       batteries := q.batteries)
  {
    hide StageStep, ReplicaDigests;
  }

  /** An update is taken exactly over the applied revision, and then replaces
      indicators, power and bonded slots, and nothing else of the context. */
  lemma UpdateContext(p: PeripheralState, m: Message, connection: nat)
    requires m.ContextUpdate?
    ensures Processed(p, Ok(m), connection) ==
            if p.lastApplied != Some(m.revision) then p
            else p.(batteries := m.batteries,
                    context := p.context.(indicators := m.context.indicators, powered := m.context.powered,
                                          bondedSlots := m.context.bondedSlots))
    ensures Answer(p, Ok(m)).Some? <==> p.lastApplied == Some(m.revision)
  {
  }

  /** The half's own layers: the latest edge since the latest reboot. */
  function OwnLayers(actions: seq<Action>): LayerState {
    if actions == [] then BOOT_CONTEXT.layers
    else
      match actions[|actions| - 1]
      case LayerEdge(layers) => layers
      case Reboot => BOOT_CONTEXT.layers
      case _ => OwnLayers(actions[..|actions| - 1])
  }

  lemma LayersStep(s: State, a: Action)
    requires Enabled(s, a)
    ensures System.Next(s, a).peripheral.context.layers ==
            match a {
              case LayerEdge(layers) => layers
              case Reboot => BOOT_CONTEXT.layers
              case _ => s.peripheral.context.layers
            }
  {
    hide Processed, Sent, Received, Noted, Arriving, Answer, Deliverable, PacketsOf, CountsInRange;
    if a.Deliver? { OwnLayersStay(s.peripheral, Arriving(s.trace.log, s.out[0]), a.connection); }
  }

  /** Over every run the layers are the half's own. */
  lemma {:induction false} LayersOverRuns(start: Snapshot, actions: seq<Action>)
    requires Possible(start, actions)
    ensures Exec(start, actions).peripheral.context.layers == OwnLayers(actions)
  {
    hide System.Next, Windowed, Enabled;
    if actions != [] {
      LayersOverRuns(start, actions[..|actions| - 1]);
      LayersStep(Exec(start, actions[..|actions| - 1]), actions[|actions| - 1]);
    }
  }

  // ---- The replicated part ----

  /** The context was adjusted and no event has told the loop since. */
  predicate ContextUnread(actions: seq<Action>) {
    actions != [] &&
    match actions[|actions| - 1]
    case Adjust(_, _) => true
    case ReadContext => false
    case _ => ContextUnread(actions[..|actions| - 1])
  }

  /** With nothing dirty and nothing unread, the latest transfer carried the
      central's present context. */
  predicate ContextFresh(s: State, unread: bool) {
    !unread && !s.lightingUnread ==>
      && (s.exported.Some? ==> Replicated(s.exported.value.context) == Replicated(s.declared.context))
      && (s.central.linkUp && !s.central.fullDirty && !s.central.contextDirty ==>
            && LatestSent(s.trace.log) > 0
            && ContextAt(s.trace.log, LatestSent(s.trace.log)) == Replicated(s.declared.context))
  }

  lemma QueueKeepsFresh(s: State, unread: bool, accepted: bool, b: BatteryPair)
    requires ContextFresh(s, unread) && s.exported.Some? && WantsToSend(s.central)
    ensures ContextFresh(Queued(s, accepted, b), unread)
  {
    LatestSnoc(s.trace.log, if accepted then Some(TransferOf(s.central, s.exported.value, b)) else None);
    hide LatestSent, LatestFull, PacketsOf, ReplicaDigests, Replicated;
  }

  lemma HeedKeepsFresh(s: State, unread: bool)
    requires ContextFresh(s, unread) && s.back != []
    ensures ContextFresh(Heeded(s), unread)
  {
    hide LatestSent, ContextAt, Replicated, Decode, Encode;
  }

  /** The peripheral's steps. */
  predicate Far(a: Action) {
    || a.Deliver? || a.Wake? || a.EngineAnswer? || a.Finish? || a.Heartbeat? || a.LayerEdge? || a.PeripheralLink?
    || a.Reboot?
  }

  /** What the context's freshness depends on stays. */
  predicate SameNear(s: State, t: State) {
    && t.central == s.central && t.declared == s.declared && t.exported == s.exported
    && t.lightingUnread == s.lightingUnread && t.trace.log == s.trace.log
  }

  lemma DeliveredIsFar(s: State, connection: nat, answered: bool)
    requires s.out != [] && Deliverable(s.trace.log, s.out[0])
    ensures SameNear(s, Delivered(s, connection, answered))
  {
    hide Processed, Noted, Arriving, Answer, Deliverable;
    NotedFrame(s.trace, s.peripheral, s.out[0], Arriving(s.trace.log, s.out[0]));
  }

  lemma WorkerIsFar(s: State)
    ensures s.peripheral.worker.Asking? ==>
      forall accept, take :: SameNear(s, EngineStep(s, accept, take))
    ensures s.peripheral.worker.Answered? ==>
      forall acked, attested :: SameNear(s, Reported(s, acked, attested))
    ensures SameNear(s, Attested(s))
  {
    hide EngineAnswered, Finished;
  }

  lemma FarStep(s: State, a: Action)
    requires Enabled(s, a) && Far(a)
    ensures SameNear(s, System.Next(s, a))
  {
    hide Delivered, EngineStep, Reported, Attested, Woken, Deliverable, CountsInRange, Queued, Heeded, Sent,
      LinkChanged, LightingChanged, TimedOut, Refreshed;
    if a.Deliver? { DeliveredIsFar(s, a.connection, a.answered); }
    WorkerIsFar(s);
  }

  lemma NearStepKeepsFresh(s: State, unread: bool, a: Action)
    requires ContextFresh(s, unread) && Enabled(s, a) && (s.exported.Some? ==> WantsToSend(s.central))
    requires !Far(a) && !a.Queue? && !a.ReadReply?
    ensures ContextFresh(System.Next(s, a), if a.Adjust? then true else if a.ReadContext? then false else unread)
  {
    hide LatestSent, ContextAt, Replicated, Processed, Queued, Heeded, Noted, Arriving, Answer, Deliverable,
      CountsInRange, Delivered, EngineStep, Reported, Attested;
  }

  lemma StepKeepsFresh(s: State, unread: bool, a: Action)
    requires ContextFresh(s, unread) && Enabled(s, a) && (s.exported.Some? ==> WantsToSend(s.central))
    ensures ContextFresh(System.Next(s, a), if a.Adjust? then true else if a.ReadContext? then false else unread)
  {
    if Far(a) {
      hide System.Next, Enabled, Far, LatestSent, ContextAt, Replicated, WantsToSend;
      FarStep(s, a);
    } else if a.Queue? {
      hide ContextFresh, Queued;
      QueueKeepsFresh(s, unread, a.accepted, a.batteries);
    } else if a.ReadReply? {
      hide ContextFresh, Heeded;
      HeedKeepsFresh(s, unread);
    } else {
      hide ContextFresh, System.Next, Enabled, Far;
      NearStepKeepsFresh(s, unread, a);
    }
  }

  lemma {:induction false} AlwaysFresh(start: Snapshot, actions: seq<Action>)
    requires Possible(start, actions)
    ensures ContextFresh(Exec(start, actions), ContextUnread(actions))
  {
    hide System.Next, Windowed, Enabled, Invariant;
    if actions != [] {
      var init := actions[..|actions| - 1];
      AlwaysFresh(start, init);
      AlwaysInvariant(start, init);
      ExportedWants(Exec(start, init));
      hide ContextFresh;
      StepKeepsFresh(Exec(start, init), ContextUnread(init), actions[|actions| - 1]);
    }
  }

  lemma ExportedWants(s: State)
    requires Invariant(s)
    ensures s.exported.Some? ==> WantsToSend(s.central)
  {
    hide WireSide, FarSide, BeliefSide, SoundLog, UpToDate, ExpectsLatest, AckedSide;
  }

  /** Convergence of the context, over every run: once the loop is quiescent,
      has no context to send and has been told of every adjustment, the
      peripheral's replicated context is the central's present one, and its
      batteries are the last ones sent, if the codec carries that transfer. */
  lemma QuiescentContext(start: Snapshot, actions: seq<Action>)
    requires Possible(start, actions) && Quiescent(Exec(start, actions))
    requires !Exec(start, actions).central.contextDirty && !ContextUnread(actions)
    ensures var s := Exec(start, actions); var h := LatestSent(s.trace.log);
            && h > 0
            && (Portable(s.trace.log, h) ==>
                 && Replicated(s.peripheral.context) == Replicated(s.declared.context)
                 && s.peripheral.batteries == BatteriesAt(s.trace.log, h))
  {
    AlwaysFresh(start, actions);
    QuiescentConvergence(start, actions);
    hide Exec, Possible, LatestSent, LatestFull, Faithful, CameWith, Portable, FaithfulTo, Replicated, ContextAt;
  }
}

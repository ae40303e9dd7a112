/** The worker, the engine, and the peripheral's own events. */
module SystemWorker {
  import opened Prelude
  import opened Lighting
  import opened Codec
  import opened Transaction
  import opened Staging
  import opened Digesting
  import opened Central
  import opened Peripheral
  import opened System
  import opened SystemInvariant

  /** A step of the far side that leaves the wire's position alone. */
  predicate FarStep(t: Provenance, u: Provenance) {
    u.log == t.log && u.rxGen == t.rxGen && u.rxPos == t.rxPos && u.ackedGen == t.ackedGen
      && u.settledGen == t.settledGen
  }

  lemma NearIgnores(s: State, u: Provenance)
    requires CentralSide(s.central, s.declared, s.exported, s.lightingUnread, s.trace) && WireSide(s.out, s.trace)
    requires FarStep(s.trace, u)
    ensures CentralSide(s.central, s.declared, s.exported, s.lightingUnread, u) && WireSide(s.out, u)
  {
    hide LatestFull, LatestSent, AwaitsLatest, SoundLog, ReplicaDigests, SameDeclared, Sound;
    hide Deliverable, Before, PacketsOf, Logged;
  }

  lemma CommittedIgnores(t: Provenance, u: Provenance)
    requires FarStep(t, u)
    ensures forall g :: CommittedBy(g, t) == CommittedBy(g, u)
  {
    hide PacketsOf;
  }

  // ---- Worker ----

  /** Stage and context look at neither worker, slot nor engine. */
  lemma StageContextIgnore(p: PeripheralState, q: PeripheralState, t: Provenance, u: Provenance)
    requires u == t.(slotGen := u.slotGen, signalGen := u.signalGen, workerGen := u.workerGen, engineGen := u.engineGen,
                     lastGen := u.lastGen, applied := u.applied)
    requires q.stage == p.stage && q.context == p.context && q.batteries == p.batteries
    ensures StageSide(p.stage, t) == StageSide(q.stage, u) && ContextSide(p, t) == ContextSide(q, u)
    ensures forall g :: CommittedBy(g, t) == CommittedBy(g, u)
  {
    hide Feed, Selected, CameWith, PacketsOf, FullAt, Logged, SnapshotAt, Replicated;
  }

  lemma BackIgnores(back: seq<Reply>, p: PeripheralState, q: PeripheralState, t: Provenance, u: Provenance)
    requires BackSide(back, p, t)
    requires t.applied.Keys <= u.applied.Keys && forall g :: g in t.applied ==> u.applied[g] == t.applied[g]
    requires u.log == t.log && t.contextGen <= u.contextGen && u.bootGen == t.bootGen
    requires p.lastApplied.Some? ==> q.lastApplied.Some? && t.lastGen <= u.lastGen
    ensures BackSide(back, q, u)
  {
    forall r | r in back ensures TrueReply(r, q, u) {
      assert TrueReply(r, p, t);
      hide Logged, FullAt, RevisionAt, Byte, ReplicaDigests;
    }
  }

  lemma WakeCells(p: PeripheralState, t: Provenance, u: Provenance)
    requires SlotSide(p, t) && EngineSide(p, t) && p.worker.Resting? && p.signal.Some?
    requires u == t.(workerGen := t.signalGen) && (forall g :: CommittedBy(g, t) == CommittedBy(g, u))
    ensures SlotSide(Woken(p), u) && EngineSide(Woken(p), u)
  {
    hide CommittedBy, Faithful, Describes, ReplicaDigests;
  }

  lemma WakeFar(p: PeripheralState, back: seq<Reply>, t: Provenance)
    requires FarSide(p, back, t) && p.worker.Resting? && p.signal.Some?
    ensures FarSide(Woken(p), back, t.(workerGen := t.signalGen))
  {
    var u := t.(workerGen := t.signalGen);
    hide StageSide, ContextSide, SlotSide, EngineSide, BackSide, CommittedBy;
    StageContextIgnore(p, Woken(p), t, u);
    WakeCells(p, t, u);
    BackIgnores(back, p, Woken(p), t, u);
  }

  /** The engine takes the slot's snapshot. */
  lemma AcceptCells(p: PeripheralState, t: Provenance, u: Provenance)
    requires SlotSide(p, t) && EngineSide(p, t) && p.worker.Asking? && p.slot.Some?
    requires u == t.(applied := t.applied[t.slotGen := p.slot.value], engineGen := t.slotGen)
    requires forall g :: CommittedBy(g, t) == CommittedBy(g, u)
    ensures SlotSide(EngineAnswered(p, true, true), u) && EngineSide(EngineAnswered(p, true, true), u)
    ensures forall take :: EngineAnswered(p, true, take) == EngineAnswered(p, true, true)
    ensures t.slotGen !in t.applied
  {
    hide CommittedBy, Faithful, Describes, ReplicaDigests;
  }

  lemma AskingHasSlot(p: PeripheralState, t: Provenance)
    requires SlotSide(p, t) && p.worker.Asking?
    ensures p.slot.Some?
  {
  }

  /** What the engine's answer leaves alone. */
  lemma AnswerLeaves(p: PeripheralState)
    requires p.worker.Asking?
    ensures var q := EngineAnswered(p, true, true);
            && q.stage == p.stage && q.context == p.context && q.batteries == p.batteries
            && q.lastApplied == p.lastApplied
  {
  }

  lemma AcceptFar(p: PeripheralState, back: seq<Reply>, t: Provenance)
    requires FarSide(p, back, t) && p.worker.Asking? && p.slot.Some?
    ensures var u := t.(applied := t.applied[t.slotGen := p.slot.value], engineGen := t.slotGen);
            forall take :: FarSide(EngineAnswered(p, true, take), back, u)
  {
    hide StageSide, ContextSide, SlotSide, EngineSide, BackSide, CommittedBy, EngineAnswered;
    var u := t.(applied := t.applied[t.slotGen := p.slot.value], engineGen := t.slotGen);
    AnswerLeaves(p);
    var q := EngineAnswered(p, true, true);
    StageContextIgnore(p, q, t, u);
    AcceptCells(p, t, u);
    BackIgnores(back, p, q, t, u);
  }

  lemma RefuseCells(p: PeripheralState, t: Provenance, take: bool)
    requires SlotSide(p, t) && EngineSide(p, t) && p.worker.Asking?
    ensures SlotSide(EngineAnswered(p, false, take), t) && EngineSide(EngineAnswered(p, false, take), t)
  {
    hide CommittedBy, Faithful, Describes, ReplicaDigests;
  }

  lemma RefuseFar(p: PeripheralState, back: seq<Reply>, t: Provenance, take: bool)
    requires FarSide(p, back, t) && p.worker.Asking?
    ensures FarSide(EngineAnswered(p, false, take), back, t)
  {
    hide StageSide, ContextSide, SlotSide, EngineSide, BackSide, CommittedBy;
    StageContextIgnore(p, EngineAnswered(p, false, take), t, t);
    RefuseCells(p, t, take);
    BackIgnores(back, p, EngineAnswered(p, false, take), t, t);
  }

  lemma FinishCells(p: PeripheralState, t: Provenance, u: Provenance)
    requires SlotSide(p, t) && EngineSide(p, t) && p.worker.Answered? && p.worker.accepted
    requires u == t.(lastGen := t.workerGen) && (forall g :: CommittedBy(g, t) == CommittedBy(g, u))
    ensures SlotSide(Finished(p), u) && EngineSide(Finished(p), u)
    ensures p.lastApplied.Some? ==> t.lastGen <= t.workerGen
  {
    hide CommittedBy, Faithful, ReplicaDigests, Byte;
  }

  /** Reporting an applied snapshot. */
  lemma FinishFar(p: PeripheralState, back: seq<Reply>, t: Provenance)
    requires FarSide(p, back, t) && p.worker.Answered? && p.worker.accepted
    ensures FarSide(Finished(p), back, t.(lastGen := t.workerGen))
    ensures p.lastApplied.Some? ==> t.lastGen <= t.workerGen
  {
    var u := t.(lastGen := t.workerGen);
    hide StageSide, ContextSide, SlotSide, EngineSide, BackSide, CommittedBy;
    StageContextIgnore(p, Finished(p), t, u);
    FinishCells(p, t, u);
    BackIgnores(back, p, Finished(p), t, u);
  }

  lemma RestCells(p: PeripheralState, t: Provenance)
    requires SlotSide(p, t) && EngineSide(p, t) && p.worker.Answered? && !p.worker.accepted
    ensures SlotSide(Finished(p), t) && EngineSide(Finished(p), t)
  {
    hide CommittedBy, Faithful, Describes, ReplicaDigests;
  }

  lemma RestFar(p: PeripheralState, back: seq<Reply>, t: Provenance)
    requires FarSide(p, back, t) && p.worker.Answered? && !p.worker.accepted
    ensures FarSide(Finished(p), back, t)
  {
    hide StageSide, ContextSide, SlotSide, EngineSide, BackSide, CommittedBy;
    StageContextIgnore(p, Finished(p), t, t);
    RestCells(p, t);
    BackIgnores(back, p, Finished(p), t, t);
  }

  lemma FaithfulRevision(log: Log, g: nat, held: Snapshot)
    requires Faithful(log, g, held)
    ensures FullAt(log, g) && RevisionAt(log, g) == held.revision
  {
    hide YieldsHeld;
  }

  lemma AnsweredFacts(p: PeripheralState, t: Provenance)
    requires SlotSide(p, t) && EngineSide(p, t) && p.worker.Answered? && p.worker.accepted
    ensures t.workerGen in t.applied && Describes(p.worker.request, t.workerGen, t.applied[t.workerGen])
    ensures Faithful(t.log, t.workerGen, t.applied[t.workerGen]) && t.workerGen <= t.contextGen
  {
    hide Faithful, CommittedBy, ReplicaDigests, Byte;
  }

  /** What the worker then sends is true. */
  lemma ReportTrue(p: PeripheralState, t: Provenance)
    requires SlotSide(p, t) && EngineSide(p, t) && p.worker.Answered? && p.worker.accepted
    ensures var u, request := t.(lastGen := t.workerGen), p.worker.request;
            && TrueReply(Reply(t.workerGen, Ack(request.generation, request.revision)), Finished(p), u)
            && TrueReply(Reply(t.workerGen, Attestation(request.generation, request.digests)), Finished(p), u)
  {
    hide SlotSide, EngineSide, ReplicaDigests, Faithful, CommittedBy, Byte, RevisionAt;
    AnsweredFacts(p, t);
    FaithfulRevision(t.log, t.workerGen, t.applied[t.workerGen]);
  }

  lemma HeartbeatTrue(p: PeripheralState, t: Provenance)
    requires EngineSide(p, t) && p.lastDigests.Some?
    ensures TrueReply(Reply(t.lastGen, Attestation(0, p.lastDigests.value)), p, t)
  {
    hide CommittedBy, Faithful, ReplicaDigests;
  }

  lemma BackAppends(back: seq<Reply>, more: seq<Reply>, p: PeripheralState, t: Provenance)
    requires BackSide(back, p, t) && forall r :: r in more ==> TrueReply(r, p, t)
    ensures BackSide(back + more, p, t)
  {
    hide TrueReply;
  }

  lemma FarAppends(p: PeripheralState, back: seq<Reply>, more: seq<Reply>, t: Provenance)
    requires FarSide(p, back, t) && forall r :: r in more ==> TrueReply(r, p, t)
    ensures FarSide(p, back + more, t)
  {
    hide TrueReply, StageSide, SlotSide, EngineSide, ContextSide;
  }

  // ---- The half's own events ----

  lemma LayerFar(p: PeripheralState, back: seq<Reply>, t: Provenance, layers: LayerState)
    requires FarSide(p, back, t)
    ensures FarSide(p.(context := p.context.(layers := layers)), back, t)
  {
    hide CommittedBy, Faithful, Describes, ReplicaDigests, HeardSide, CameWith, BackSide, Logged;
    var q := p.(context := p.context.(layers := layers));
    assert Replicated(q.context) == Replicated(p.context);
    hide Replicated;
    BackIgnores(back, p, q, t, t);
  }

  lemma StageResets(stage: Option<Stage>, t: Provenance)
    requires StageSide(stage, t)
    ensures StageSide(None, t.(heard := []))
  {
    NothingSelected();
    hide PacketsOf, Selected;
  }

  lemma ResetFar(p: PeripheralState, back: seq<Reply>, t: Provenance)
    requires FarSide(p, back, t)
    ensures FarSide(p.(stage := None), back, t.(heard := []))
  {
    hide CommittedBy, Faithful, Describes, ReplicaDigests, StageSide, CameWith, BackSide, Logged;
    var q, u := p.(stage := None), t.(heard := []);
    StageResets(p.stage, t);
    CommittedIgnores(t, u);
    BackIgnores(back, p, q, t, u);
  }

  /** After a reboot only acknowledgements of older transfers are in flight, and
      they still name what the engine once accepted. */
  lemma RebootFar(p: PeripheralState, back: seq<Reply>, t: Provenance)
    requires FarSide(p, back, t)
    ensures FarSide(Booted, back, t.(heard := [], contextGen := 0, bootGen := |t.log|))
  {
    hide CommittedBy, Faithful, Describes, ReplicaDigests, CameWith, FullAt, RevisionAt, Byte;
    hide Feed, Selected, PacketsOf;
    var u := t.(heard := [], contextGen := 0, bootGen := |t.log|);
    StageResets(p.stage, t);
    CommittedIgnores(t, u);
    forall r | r in back ensures TrueReply(r, Booted, u) {
      assert TrueReply(r, p, t);
    }
    hide TrueReply;
  }

  // ---- The steps ----

  lemma WorkerBelief(s: State, q: PeripheralState, u: Provenance, linkUnread: bool)
    requires BeliefSide(s.central, s.linkUnread, s.peripheral, s.trace) && u.log == s.trace.log && u.bootGen <= |u.log|
    requires u.ackedGen == s.trace.ackedGen && u.settledGen == s.trace.settledGen
    requires !linkUnread ==>
      && !s.linkUnread && u.bootGen == s.trace.bootGen && s.trace.contextGen <= u.contextGen
      && (s.peripheral.lastApplied.Some? ==> q.lastApplied.Some? && s.trace.lastGen <= u.lastGen)
    ensures BeliefSide(s.central, linkUnread, q, u)
  {
  }

  lemma Reassemble(s: State, q: PeripheralState, back: seq<Reply>, u: Provenance, linkUnread: bool)
    requires Invariant(s) && FarStep(s.trace, u) && FarSide(q, back, u)
    requires BeliefSide(s.central, linkUnread, q, u)
    ensures Invariant(s.(peripheral := q, back := back, trace := u, linkUnread := linkUnread))
  {
    NearIgnores(s, u);
    hide CentralSide, WireSide, FarSide, BeliefSide;
  }

  lemma WakeKeeps(s: State)
    requires Invariant(s) && s.peripheral.worker.Resting? && s.peripheral.signal.Some?
    ensures Invariant(s.(peripheral := Woken(s.peripheral), trace := s.trace.(workerGen := s.trace.signalGen)))
  {
    var q, u := Woken(s.peripheral), s.trace.(workerGen := s.trace.signalGen);
    WakeFar(s.peripheral, s.back, s.trace);
    WorkerBelief(s, q, u, s.linkUnread);
    Reassemble(s, q, s.back, u, s.linkUnread);
    hide Invariant;
  }

  lemma EngineKeeps(s: State, accept: bool, take: bool)
    requires Invariant(s) && s.peripheral.worker.Asking?
    ensures Invariant(EngineStep(s, accept, take))
  {
    var p, t := s.peripheral, s.trace;
    AskingHasSlot(p, t);
    AcceptFar(p, s.back, t);
    RefuseFar(p, s.back, t, take);
    var next := EngineStep(s, accept, take);
    hide FarSide;
    WorkerBelief(s, next.peripheral, next.trace, s.linkUnread);
    Reassemble(s, next.peripheral, s.back, next.trace, s.linkUnread);
    hide Invariant;
  }

  function Told(s: State, acked: bool, attested: bool): seq<Reply>
    requires s.peripheral.worker.Answered?
  {
    var request := s.peripheral.worker.request;
    var ack := Reply(s.trace.workerGen, Ack(request.generation, request.revision));
    var attestation := Reply(s.trace.workerGen, Attestation(request.generation, request.digests));
    if !acked then [] else if !attested then [ack] else [ack, attestation]
  }

  lemma FarAndBelief(s: State)
    requires Invariant(s)
    ensures FarSide(s.peripheral, s.back, s.trace)
    ensures BeliefSide(s.central, s.linkUnread, s.peripheral, s.trace) && s.trace.bootGen <= |s.trace.log|
  {
    hide CentralSide, WireSide, FarSide;
  }

  lemma ReportFar(p: PeripheralState, back: seq<Reply>, t: Provenance, more: seq<Reply>)
    requires FarSide(p, back, t) && p.worker.Answered? && p.worker.accepted
    requires var request := p.worker.request;
             forall r :: r in more ==> || r == Reply(t.workerGen, Ack(request.generation, request.revision))
                                       || r == Reply(t.workerGen, Attestation(request.generation, request.digests))
    ensures FarSide(Finished(p), back + more, t.(lastGen := t.workerGen))
    ensures p.lastApplied.Some? ==> t.lastGen <= t.workerGen
  {
    hide StageSide, ContextSide, SlotSide, EngineSide, BackSide, TrueReply;
    assert SlotSide(p, t) && EngineSide(p, t);
    hide FarSide;
    FinishFar(p, back, t);
    ReportTrue(p, t);
    FarAppends(Finished(p), back, more, t.(lastGen := t.workerGen));
  }

  lemma ReportKeeps(s: State, acked: bool, attested: bool)
    requires Invariant(s) && s.peripheral.worker.Answered? && s.peripheral.worker.accepted
    ensures Invariant(s.(peripheral := Finished(s.peripheral), back := s.back + Told(s, acked, attested),
                         trace := s.trace.(lastGen := s.trace.workerGen)))
  {
    hide FarSide, BeliefSide, Invariant;
    FarAndBelief(s);
    var q, u := Finished(s.peripheral), s.trace.(lastGen := s.trace.workerGen);
    ReportFar(s.peripheral, s.back, s.trace, Told(s, acked, attested));
    WorkerBelief(s, q, u, s.linkUnread);
    Reassemble(s, q, s.back + Told(s, acked, attested), u, s.linkUnread);
  }

  lemma FinishKeeps(s: State, acked: bool, attested: bool)
    requires Invariant(s) && s.peripheral.worker.Answered?
    ensures Invariant(Reported(s, acked, attested))
  {
    if s.peripheral.worker.accepted {
      ReportKeeps(s, acked, attested);
      hide Invariant, Finished;
    } else {
      RestFar(s.peripheral, s.back, s.trace);
      WorkerBelief(s, Finished(s.peripheral), s.trace, s.linkUnread);
      Reassemble(s, Finished(s.peripheral), s.back, s.trace, s.linkUnread);
      hide Invariant, Finished;
    }
  }

  lemma HeartbeatKeeps(s: State)
    requires Invariant(s)
    ensures Invariant(Attested(s))
  {
    if s.peripheral.lastDigests.Some? {
      var more := [Reply(s.trace.lastGen, Attestation(0, s.peripheral.lastDigests.value))];
      HeartbeatTrue(s.peripheral, s.trace);
      hide TrueReply;
      FarAppends(s.peripheral, s.back, more, s.trace);
      Reassemble(s, s.peripheral, s.back + more, s.trace, s.linkUnread);
      hide Invariant;
    }
  }

  lemma OwnEventsKeep(s: State, layers: LayerState)
    requires Invariant(s)
    ensures Invariant(s.(peripheral := s.peripheral.(context := s.peripheral.context.(layers := layers))))
    ensures Invariant(s.(peripheral := s.peripheral.(stage := None), trace := s.trace.(heard := [])))
  {
    var p, t := s.peripheral, s.trace;
    var q := p.(context := p.context.(layers := layers));
    LayerFar(p, s.back, t, layers);
    WorkerBelief(s, q, t, s.linkUnread);
    Reassemble(s, q, s.back, t, s.linkUnread);
    var r, u := p.(stage := None), t.(heard := []);
    ResetFar(p, s.back, t);
    WorkerBelief(s, r, u, s.linkUnread);
    Reassemble(s, r, s.back, u, s.linkUnread);
    hide Invariant;
  }

  lemma RebootKeeps(s: State)
    requires Invariant(s)
    ensures Invariant(s.(peripheral := Booted, linkUnread := true,
                         trace := s.trace.(heard := [], contextGen := 0, bootGen := |s.trace.log|)))
  {
    var u := s.trace.(heard := [], contextGen := 0, bootGen := |s.trace.log|);
    RebootFar(s.peripheral, s.back, s.trace);
    WorkerBelief(s, Booted, u, true);
    Reassemble(s, Booted, s.back, u, true);
    hide Invariant;
  }
}

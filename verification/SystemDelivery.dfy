/** A packet reaches the peripheral: the one step that moves the stage, the
    slot, the context and the acknowledgements together. */
module SystemDelivery {
  import opened Prelude
  import opened Lighting
  import opened Codec
  import opened CodecProofs
  import opened Transaction
  import opened Staging
  import opened Digesting
  import opened Loss
  import opened LossSafety
  import opened Central
  import opened Peripheral
  import opened System
  import opened SystemInvariant

  // ---- What can arrive ----

  /** A packet of the transaction of generation byte `g` and revision `r`. */
  predicate InTransaction(m: Message, g: u8, r: u32) {
    IsTransactionMessage(m) && m.generation == g && m.revision == r && (m.Begin? ==> AcceptedBegin(m))
  }

  predicate AllIn(ms: seq<Message>, g: u8, r: u32) { forall m :: m in ms ==> InTransaction(m, g, r) && !m.Commit? }

  lemma {:induction false} ConditionalPacketsIn(g: u8, r: u32, cells: seq<ConditionalCell>)
    ensures AllIn(ConditionalPackets(g, r, cells), g, r)
  {
    if cells != [] { ConditionalPacketsIn(g, r, cells[..|cells| - 1]); }
  }

  lemma AllInAppend(a: seq<Message>, b: seq<Message>, g: u8, r: u32)
    requires AllIn(a, g, r) && AllIn(b, g, r)
    ensures AllIn(a + b, g, r)
  {
    hide InTransaction;
  }

  lemma FramingIn(g: u8, s: Snapshot, b: BatteryPair)
    requires CountsInRange(s)
    ensures AllIn(Prologue(g, s, b), g, s.revision) && AllIn(Announce(g, s), g, s.revision)
    ensures InTransaction(Epilogue(g, s)[0], g, s.revision)
  {
    hide RightOverlay, RightScenes, RightConditional, Replicated;
  }

  lemma CellsIn(g: u8, r: u32, overlay: seq<OverlayCell>, scenes: seq<SceneCell>)
    ensures AllIn(CellPackets(g, r, overlay), g, r) && AllIn(ScenePackets(g, r, scenes), g, r)
  {
    CellPacketsKind(g, r, overlay);
    ScenePacketsKind(g, r, scenes);
    hide CellPackets, ScenePackets;
  }

  lemma WalkIn(g: u8, s: Snapshot, b: BatteryPair)
    requires CountsInRange(s)
    ensures var W := Walk(g, s, b);
            && W != [] && AllIn(W[..|W| - 1], g, s.revision)
            && W[|W| - 1].Commit? && InTransaction(W[|W| - 1], g, s.revision)
  {
    var r := s.revision;
    var p, o, c, a := Prologue(g, s, b), CellPackets(g, r, RightOverlay(s.overlay)),
      ScenePackets(g, r, RightScenes(s.scenes.cells)), Announce(g, s);
    var q, e, W := ConditionalPackets(g, r, RightConditional(s.conditional)), Epilogue(g, s), Walk(g, s, b);
    FramingIn(g, s, b);
    CellsIn(g, r, RightOverlay(s.overlay), RightScenes(s.scenes.cells));
    ConditionalPacketsIn(g, r, RightConditional(s.conditional));
    assert |e| == 1 && e[0].Commit?;
    assert W == p + o + c + a + q + e;
    hide *;
    assert W[..|W| - 1] == p + o + c + a + q && W[|W| - 1] == e[0];
    AllInAppend(p, o, g, r);
    AllInAppend(p + o, c, g, r);
    AllInAppend(p + o + c, a, g, r);
    AllInAppend(p + o + c + a, q, g, r);
  }

  lemma HeaderStays(a: Message, b: Message, g: u8, r: u32)
    requires SameHeader(a, b) && InTransaction(b, g, r)
    ensures InTransaction(a, g, r) && (a.Commit? <==> b.Commit?)
  {
  }

  /** Whatever the bytes of a full transfer decode to, it is of that transfer,
      and only the last packet commits. */
  lemma FullArrives(log: Log, p: InFlight)
    requires FullAt(log, p.gen) && Deliverable(log, p) && CountsInRange(SnapshotAt(log, p.gen))
    ensures var d := Arriving(log, p);
            d.Ok? ==>
              && InTransaction(d.value, Byte(p.gen), SnapshotAt(log, p.gen).revision)
              && (d.value.Commit? ==> p.idx == |PacketsOf(log, p.gen)| - 1)
  {
    var s, W := SnapshotAt(log, p.gen), PacketsOf(log, p.gen);
    WalkIn(Byte(p.gen), s, BatteriesAt(log, p.gen));
    CodecKeepsHeader(W[p.idx]);
    assert p.idx < |W| - 1 ==> W[p.idx] in W[..|W| - 1];
    var d := Arriving(log, p);
    if d.Ok? {
      hide Walk, Encode, Decode, InTransaction, SameHeader, CountsInRange;
      HeaderStays(d.value, W[p.idx], Byte(p.gen), s.revision);
    }
  }

  lemma DeltaArrives(log: Log, p: InFlight)
    requires Logged(log, p.gen) && !FullAt(log, p.gen) && Deliverable(log, p)
    ensures var d := Arriving(log, p);
            d.Ok? ==>
              && d.value.ContextUpdate? && d.value.generation == Byte(p.gen)
              && d.value.revision == RevisionAt(log, p.gen)
              && CameWith(log, p.gen, d.value.context, d.value.batteries)
  {
    var m := PacketsOf(log, p.gen)[p.idx];
    CodecKeepsHeader(m);
    hide Encode, Decode, Byte;
    var d := Arriving(log, p);
    if d.Ok? {
      assert ReadAt([0], [d.value], PacketsOf(log, p.gen));
    }
  }

  // ---- The stage ----

  lemma StepOwn(stage: Option<Stage>, m: Message, g: u8, r: u32)
    requires InTransaction(m, g, r)
    ensures var result := StageStep(stage, m);
            && (result.stage.Some? ==> result.stage.value.Of(g, r))
            && (result.output.Some? ==>
                 && m.Commit? && stage.Some? && stage.value.Of(g, r)
                 && result.output.value.generation == g && result.output.value.snapshot.revision == r)
  {
  }

  lemma StepFresh(stage: Option<Stage>, m: Message, g: u8, r: u32)
    requires InTransaction(m, g, r) && (stage.None? || !stage.value.Of(g, r))
    ensures StageStep(stage, m) == StageStep(None, m) && StageStep(None, m).output.None?
  {
  }

  /** More packets, more to select from. */
  lemma SelectedOfMore(heard: seq<Message>, ms: seq<Message>, i: nat, j: nat)
    requires i <= j <= |ms| && Selected(heard, ms[..i])
    ensures Selected(heard, ms[..j]) && Selected(heard, ms)
  {
    hide Encode, Decode;
    var at :| ReadAt(at, heard, ms[..i]);
    assert ReadAt(at, heard, ms[..j]) && ReadAt(at, heard, ms);
  }

  lemma SelectedOne(heard: seq<Message>, ms: seq<Message>, from: nat, n: nat, m: Message)
    requires from <= n < |ms| && Selected(heard, ms[..from]) && Decode(Encode(ms[n])) == Ok(m)
    ensures Selected(heard + [m], ms[..n + 1]) && Selected(heard + [m], ms)
  {
    hide Encode, Decode;
    var at :| ReadAt(at, heard, ms[..from]);
    assert ReadAt(at + [n], heard + [m], ms[..n + 1]) && ReadAt(at + [n], heard + [m], ms);
  }

  function Moved(t: Provenance, p: InFlight): Provenance { t.(rxGen := p.gen, rxPos := p.idx + 1) }

  lemma HeardMoves(stage: Option<Stage>, t: Provenance, p: InFlight)
    requires FullAt(t.log, t.stageGen) && HeardSide(stage, t)
    requires t.stageGen <= t.rxGen && NotYet(p, t) && Deliverable(t.log, p)
    ensures HeardSide(stage, Moved(t, p))
  {
    hide Feed, Selected, PacketsOf;
    if t.stageGen == p.gen {
      SelectedOfMore(t.heard, PacketsOf(t.log, t.stageGen), t.rxPos, p.idx + 1);
    }
  }

  /** Moving past a packet that leaves the stage alone. */
  lemma StageMoves(stage: Option<Stage>, t: Provenance, p: InFlight)
    requires StageSide(stage, t) && Deliverable(t.log, p) && NotYet(p, t)
    ensures StageSide(stage, Moved(t, p))
  {
    hide HeardSide, PacketsOf, FullAt, Byte;
    if FullAt(t.log, t.stageGen) {
      HeardMoves(stage, t, p);
    }
  }

  function StageMoved(t: Provenance, p: InFlight, m: Message): Provenance {
    Moved(t, p).(stageGen := p.gen, heard := (if t.stageGen == p.gen then t.heard else []) + [m])
  }

  /** The packet that arrives joins what was heard. */
  lemma HeardGrows(t: Provenance, p: InFlight, m: Message, packets: seq<Message>)
    requires p.idx < |packets| && Decode(Encode(packets[p.idx])) == Ok(m)
    requires t.stageGen == p.gen ==> t.rxPos <= p.idx && Selected(t.heard, packets[..t.rxPos])
    ensures Selected(StageMoved(t, p, m).heard, packets[..p.idx + 1])
    ensures Selected(StageMoved(t, p, m).heard, packets)
  {
    hide Selected, Encode, Decode;
    if t.stageGen == p.gen {
      SelectedOne(t.heard, packets, t.rxPos, p.idx, m);
    } else {
      NothingSelected();
      SelectedOne([], packets, 0, p.idx, m);
    }
  }

  /** A stage of an older transfer cannot be taken for one of this transfer. */
  lemma OlderStage(stage: Option<Stage>, t: Provenance, p: InFlight, r: u32)
    requires StageSide(stage, t) && stage.Some? && t.stageGen != p.gen
    requires p.gen >= t.rxGen && p.gen <= |t.log| < t.stageGen + 256
    ensures !stage.value.Of(Byte(p.gen), r)
  {
    hide HeardSide, CameWith;
  }

  /** How the stage steps, seen from an empty one when the transfer is new. */
  lemma StageSteps(stage: Option<Stage>, t: Provenance, p: InFlight, m: Message)
    requires StageSide(stage, t) && FullAt(t.log, p.gen) && NotYet(p, t)
    requires stage.Some? ==> |t.log| < t.stageGen + 256
    requires InTransaction(m, Byte(p.gen), SnapshotAt(t.log, p.gen).revision)
    ensures t.stageGen != p.gen ==> StageStep(stage, m) == StageStep(None, m) && StageStep(None, m).output.None?
  {
    if t.stageGen != p.gen {
      if stage.Some? { OlderStage(stage, t, p, SnapshotAt(t.log, p.gen).revision); }
      hide StageSide, InTransaction, StageStep;
      StepFresh(stage, m, Byte(p.gen), SnapshotAt(t.log, p.gen).revision);
    }
  }

  lemma HeardDelivers(stage: Option<Stage>, t: Provenance, p: InFlight, m: Message)
    requires FullAt(t.log, p.gen) && NotYet(p, t)
    requires t.stageGen == p.gen ==> HeardSide(stage, t) && t.stageGen <= t.rxGen
    requires t.stageGen != p.gen ==> StageStep(stage, m) == StageStep(None, m)
    requires Deliverable(t.log, p) && Arriving(t.log, p) == Ok(m)
    ensures HeardSide(StageStep(stage, m).stage, StageMoved(t, p, m))
  {
    hide Selected, StageStep, PacketsOf, Encode, Decode;
    HeardGrows(t, p, m, PacketsOf(t.log, p.gen));
    FeedSnoc(None, if t.stageGen == p.gen then t.heard else [], m);
  }

  lemma StageDelivers(stage: Option<Stage>, t: Provenance, p: InFlight, m: Message)
    requires StageSide(stage, t) && FullAt(t.log, p.gen) && NotYet(p, t)
    requires stage.Some? ==> |t.log| < t.stageGen + 256
    requires InTransaction(m, Byte(p.gen), SnapshotAt(t.log, p.gen).revision)
    requires Deliverable(t.log, p) && Arriving(t.log, p) == Ok(m)
    ensures StageSide(StageStep(stage, m).stage, StageMoved(t, p, m))
  {
    StepOwn(stage, m, Byte(p.gen), SnapshotAt(t.log, p.gen).revision);
    StageSteps(stage, t, p, m);
    hide StageStep, InTransaction, HeardSide, Byte, Arriving, Deliverable;
    HeardDelivers(stage, t, p, m);
  }

  /** The snapshot that comes out is the transfer's. */
  lemma OutputIsFaithful(stage: Option<Stage>, t: Provenance, p: InFlight, m: Message, out: Staged)
    requires StageSide(stage, t) && FullAt(t.log, p.gen) && NotYet(p, t)
    requires stage.Some? ==> |t.log| < t.stageGen + 256
    requires p.gen <= |t.log| && InTransaction(m, Byte(p.gen), SnapshotAt(t.log, p.gen).revision)
    requires Deliverable(t.log, p) && Arriving(t.log, p) == Ok(m)
    requires StageStep(stage, m).output == Some(out)
    ensures out.generation == Byte(p.gen)
    ensures Yields(PacketsOf(t.log, p.gen), out) && Faithful(t.log, p.gen, out.snapshot)
  {
    hide StageStep, InTransaction, PacketsOf, Byte, Selected, Encode, Decode, Yields, YieldsHeld;
    var g, r := Byte(p.gen), SnapshotAt(t.log, p.gen).revision;
    StepOwn(stage, m, g, r);
    if t.stageGen != p.gen { OlderStage(stage, t, p, r); }
    HeardGrows(t, p, m, PacketsOf(t.log, p.gen));
    FeedSnoc(None, t.heard, m);
    YieldsOutput(t.heard + [m], PacketsOf(t.log, p.gen), out);
  }

  lemma YieldsOutput(heard: seq<Message>, ms: seq<Message>, out: Staged)
    requires Selected(heard, ms) && out in Feed(None, heard).outputs
    ensures Yields(ms, out) && YieldsHeld(ms, out.snapshot)
  {
    assert SameButOwn(out.snapshot, out.snapshot);
  }

  // ---- The hand-off ----

  /** `u` differs from `t` at most in what is being received. */
  predicate OnlyReceives(t: Provenance, u: Provenance) {
    u == t.(rxGen := u.rxGen, rxPos := u.rxPos, stageGen := u.stageGen, heard := u.heard)
  }

  lemma CommittedEarlier(g: nat, t: Provenance, p: InFlight)
    requires CommittedBy(g, t) && NotYet(p, t) && Deliverable(t.log, p)
    ensures g < p.gen
  {
    hide PacketsOf;
  }

  lemma CommittedMoves(g: nat, t: Provenance, u: Provenance, p: InFlight)
    requires CommittedBy(g, t) && NotYet(p, t) && Deliverable(t.log, p) && u.log == t.log && u.rxGen == p.gen
    ensures CommittedBy(g, u)
  {
    CommittedEarlier(g, t, p);
    hide PacketsOf;
  }

  lemma SlotMoves(p: PeripheralState, t: Provenance, u: Provenance, at: InFlight)
    requires SlotSide(p, t) && OnlyReceives(t, u) && u.rxGen == at.gen && NotYet(at, t) && Deliverable(t.log, at)
    ensures SlotSide(p, u)
  {
    hide CommittedBy, Faithful, Describes, Deliverable, NotYet;
    if p.slot.Some? { CommittedMoves(t.slotGen, t, u, at); }
  }

  lemma EngineMoves(p: PeripheralState, t: Provenance, u: Provenance, at: InFlight)
    requires EngineSide(p, t) && OnlyReceives(t, u) && u.rxGen == at.gen && NotYet(at, t) && Deliverable(t.log, at)
    ensures EngineSide(p, u)
  {
    hide CommittedBy, Faithful, ReplicaDigests, Deliverable, NotYet;
    forall g | g in t.applied || g in t.refused ensures CommittedBy(g, u) {
      CommittedMoves(g, t, u, at);
    }
  }

  lemma ContextMoves(p: PeripheralState, t: Provenance, u: Provenance)
    requires ContextSide(p, t) && OnlyReceives(t, u) && t.rxGen <= u.rxGen
    ensures ContextSide(p, u)
  {
    hide CameWith, Replicated;
  }

  lemma BackMoves(back: seq<Reply>, p: PeripheralState, t: Provenance, u: Provenance)
    requires BackSide(back, p, t)
    requires OnlyReceives(t, u.(contextGen := t.contextGen, slotGen := t.slotGen, signalGen := t.signalGen,
      refused := t.refused))
    requires t.contextGen <= u.contextGen
    ensures forall q: PeripheralState :: q.lastApplied == p.lastApplied ==> BackSide(back, q, u)
  {
    forall q: PeripheralState, r | q.lastApplied == p.lastApplied && r in back ensures TrueReply(r, q, u) {
      assert TrueReply(r, p, t);
      hide Logged, FullAt, RevisionAt, Byte, ReplicaDigests;
    }
  }

  // ---- One delivery, case by case ----

  lemma WireMoves(out: seq<InFlight>, t: Provenance, u: Provenance)
    requires WireSide(out, t) && out != []
    requires u.log == t.log && u.rxGen == out[0].gen && u.rxPos == out[0].idx + 1
    ensures WireSide(out[1..], u)
  {
    hide PacketsOf;
    assert Deliverable(t.log, out[0]);
    forall p | p in out[1..] ensures NotYet(p, u) {
      var i :| 0 <= i < |out| - 1 && out[1..][i] == p;
      assert Before(out[0], out[i + 1]);
    }
  }

  lemma FarBasics(p: PeripheralState, back: seq<Reply>, t: Provenance)
    requires FarSide(p, back, t)
    ensures StageSide(p.stage, t) && SlotSide(p, t) && EngineSide(p, t) && t.contextGen <= t.rxGen
  {
    hide StageSide, SlotSide, EngineSide, BackSide, CameWith;
  }

  /** A packet that moves nothing but the position. */
  lemma FarMoves(p: PeripheralState, back: seq<Reply>, t: Provenance, at: InFlight)
    requires FarSide(p, back, t) && NotYet(at, t) && Deliverable(t.log, at)
    ensures FarSide(p, back, Moved(t, at))
  {
    hide SlotSide, EngineSide, ContextSide, BackSide, StageSide, Deliverable;
    StageMoves(p.stage, t, at);
    SlotMoves(p, t, Moved(t, at), at);
    EngineMoves(p, t, Moved(t, at), at);
    ContextMoves(p, t, Moved(t, at));
    BackMoves(back, p, t, Moved(t, at));
  }

  lemma DeltaContext(p: PeripheralState, t: Provenance, at: InFlight, m: Message)
    requires Deliverable(t.log, at) && !FullAt(t.log, at.gen)
    requires Arriving(t.log, at) == Ok(m) && m.ContextUpdate?
    ensures ContextSide(p.(batteries := m.batteries, context := m.context.ApplyTo(p.context)),
                        Moved(t, at).(contextGen := at.gen))
  {
    DeltaArrives(t.log, at);
    hide Arriving, CameWith, PacketsOf;
  }

  /** A delta over the applied revision: context and batteries are the sent
      ones, and the acknowledgement says so. */
  lemma FarUpdates(p: PeripheralState, back: seq<Reply>, t: Provenance, at: InFlight, m: Message)
    requires FarSide(p, back, t) && NotYet(at, t) && Deliverable(t.log, at) && !FullAt(t.log, at.gen)
    requires Arriving(t.log, at) == Ok(m) && m.ContextUpdate?
    ensures var q := p.(batteries := m.batteries, context := m.context.ApplyTo(p.context));
            var u := Moved(t, at).(contextGen := at.gen);
            && FarSide(q, back, u)
            && FarSide(q, back + [Reply(at.gen, Ack(m.generation, m.revision))], u)
  {
    hide SlotSide, EngineSide, Arriving, Byte, CameWith;
    var q := p.(batteries := m.batteries, context := m.context.ApplyTo(p.context));
    var u := Moved(t, at).(contextGen := at.gen);
    FarMoves(p, back, t, at);
    DeltaContext(p, t, at, m);
    DeltaArrives(t.log, at);
    BackMoves(back, p, t, u);
    assert TrueReply(Reply(at.gen, Ack(m.generation, m.revision)), q, u);
    hide ContextSide, TrueReply;
    DeltaCells(p, q, Moved(t, at), at.gen);
  }

  /** Slot and engine do not look at context or batteries. */
  lemma DeltaCells(p: PeripheralState, q: PeripheralState, u: Provenance, g: nat)
    requires StageSide(p.stage, u) && SlotSide(p, u) && EngineSide(p, u) && u.contextGen <= g
    requires q == p.(batteries := q.batteries, context := q.context)
    ensures var v := u.(contextGen := g); StageSide(q.stage, v) && SlotSide(q, v) && EngineSide(q, v)
  {
    hide Faithful, Describes, ReplicaDigests, Feed, Selected, PacketsOf;
    var v := u.(contextGen := g);
    assert forall h :: CommittedBy(h, v) == CommittedBy(h, u);
    hide CommittedBy;
  }

  /** Slot and engine look at neither stage, context nor batteries. */
  lemma CellsIgnore(p: PeripheralState, q: PeripheralState, u: Provenance)
    requires q == p.(stage := q.stage, batteries := q.batteries, context := q.context)
    ensures SlotSide(p, u) == SlotSide(q, u) && EngineSide(p, u) == EngineSide(q, u)
  {
    hide CommittedBy, Faithful, Describes, ReplicaDigests;
  }

  /** A packet of a full transfer, as far as the stage goes. */
  lemma FarStages(p: PeripheralState, back: seq<Reply>, t: Provenance, at: InFlight, m: Message)
    requires FarSide(p, back, t) && NotYet(at, t) && Deliverable(t.log, at)
    requires FullAt(t.log, at.gen) && CountsInRange(SnapshotAt(t.log, at.gen))
    requires p.stage.Some? ==> |t.log| < t.stageGen + 256
    requires Arriving(t.log, at) == Ok(m)
    ensures FarSide(p.(stage := StageStep(p.stage, m).stage), back, StageMoved(t, at, m))
  {
    var q, u := p.(stage := StageStep(p.stage, m).stage), StageMoved(t, at, m);
    FullArrives(t.log, at);
    hide StageSide, SlotSide, EngineSide, ContextSide, BackSide, Arriving, StageStep, InTransaction;
    StageDelivers(p.stage, t, at, m);
    SlotMoves(p, t, u, at);
    EngineMoves(p, t, u, at);
    CellsIgnore(p, q, u);
    ContextMoves(p, t, u);
    assert ContextSide(p, u) == ContextSide(q, u) by { ContextIgnoresStage(p, q, u); }
    BackMoves(back, p, t, u);
  }

  lemma ContextIgnoresStage(p: PeripheralState, q: PeripheralState, u: Provenance)
    requires q == p.(stage := q.stage)
    ensures ContextSide(p, u) == ContextSide(q, u)
  {
  }

  lemma CommitArrives(p: PeripheralState, t: Provenance, at: InFlight, m: Message, out: Staged)
    requires StageSide(p.stage, t) && NotYet(at, t) && Deliverable(t.log, at)
    requires FullAt(t.log, at.gen) && CountsInRange(SnapshotAt(t.log, at.gen))
    requires p.stage.Some? ==> |t.log| < t.stageGen + 256
    requires Arriving(t.log, at) == Ok(m) && StageStep(p.stage, m).output == Some(out)
    ensures CommittedBy(at.gen, StageMoved(t, at, m))
    ensures out.generation == Byte(at.gen)
    ensures Yields(PacketsOf(t.log, at.gen), out) && Faithful(t.log, at.gen, out.snapshot)
  {
    hide StageSide, Arriving, StageStep, InTransaction, PacketsOf, Yields, Faithful;
    FullArrives(t.log, at);
    StepOwn(p.stage, m, Byte(at.gen), SnapshotAt(t.log, at.gen).revision);
    OutputIsFaithful(p.stage, t, at, m, out);
  }

  /** Replacing layers and connection keeps the snapshot faithful. */
  lemma MergeFaithful(log: Log, g: nat, out: Staged, own: LightingContext, connection: nat)
    requires Faithful(log, g, out.snapshot) && Yields(PacketsOf(log, g), out)
    ensures Faithful(log, g, out.snapshot.(context := Merged(out.snapshot.context, own, connection)))
    ensures CameWith(log, g, Replicated(Merged(out.snapshot.context, own, connection)), out.batteries)
  {
    hide Yields, PacketsOf;
    assert SameButOwn(out.snapshot.(context := Merged(out.snapshot.context, own, connection)), out.snapshot);
  }

  /** The cells of a half after a commit: context and batteries at once. */
  function Adopted(p: PeripheralState, out: Staged, connection: nat): PeripheralState {
    p.(batteries := out.batteries, context := Merged(out.snapshot.context, p.context, connection))
  }

  lemma FarAdopts(p: PeripheralState, back: seq<Reply>, u: Provenance, g: nat, out: Staged, connection: nat)
    requires FarSide(p, back, u) && u.rxGen == g
    requires FullAt(u.log, g) && Faithful(u.log, g, out.snapshot) && Yields(PacketsOf(u.log, g), out)
    ensures FarSide(Adopted(p, out, connection), back, u.(contextGen := g))
  {
    hide Faithful, CameWith, Merged, Yields, PacketsOf;
    hide SlotSide, EngineSide, StageSide, BackSide;
    var q := Adopted(p, out, connection);
    MergeFaithful(u.log, g, out, p.context, connection);
    DeltaCells(p, q, u, g);
    BackMoves(back, p, u, u.(contextGen := g));
  }

  /** A transfer that is only now being committed is new to every cell. */
  lemma NewToCells(p: PeripheralState, t: Provenance, at: InFlight)
    requires SlotSide(p, t) && EngineSide(p, t) && NotYet(at, t) && Deliverable(t.log, at)
    ensures at.gen !in t.applied && at.gen !in t.refused
    ensures p.slot.Some? ==> t.slotGen < at.gen
    ensures p.engine.Some? ==> t.engineGen < at.gen
  {
    hide CommittedBy, Faithful, Describes, ReplicaDigests, Deliverable, NotYet;
    if at.gen in t.applied { CommittedEarlier(at.gen, t, at); }
    if at.gen in t.refused { CommittedEarlier(at.gen, t, at); }
    if p.slot.Some? { CommittedEarlier(t.slotGen, t, at); }
    if p.engine.Some? { CommittedEarlier(t.engineGen, t, at); }
  }

  /** Stage and context look at nothing the hand-off changes. */
  lemma OthersIgnore(p: PeripheralState, q: PeripheralState, u: Provenance, v: Provenance)
    requires v == u.(slotGen := v.slotGen, signalGen := v.signalGen, refused := v.refused)
    requires q == p.(slot := q.slot, signal := q.signal)
    ensures StageSide(p.stage, u) == StageSide(q.stage, v) && ContextSide(p, u) == ContextSide(q, v)
    ensures forall g :: CommittedBy(g, u) == CommittedBy(g, v)
  {
    hide Feed, PacketsOf, Selected, CameWith, FullAt, Logged, SnapshotAt, Replicated;
  }

  lemma CellsRefuse(p: PeripheralState, u: Provenance, v: Provenance, g: nat)
    requires SlotSide(p, u) && EngineSide(p, u) && CommittedBy(g, u)
    requires v == u.(refused := u.refused + {g}) && (forall h :: CommittedBy(h, u) == CommittedBy(h, v))
    requires g !in u.applied && (p.slot.Some? ==> u.slotGen < g)
    ensures SlotSide(p, v) && EngineSide(p, v)
  {
    hide CommittedBy, Faithful, Describes, ReplicaDigests;
  }

  lemma CellsTake(p: PeripheralState, u: Provenance, v: Provenance, g: nat, held: Snapshot, request: ApplyRequest)
    requires SlotSide(p, u) && EngineSide(p, u) && CommittedBy(g, u) && u.contextGen == g && p.slot.None?
    requires v == u.(slotGen := g, signalGen := g) && (forall h :: CommittedBy(h, u) == CommittedBy(h, v))
    requires g !in u.applied && g !in u.refused && (p.engine.Some? ==> u.engineGen < g)
    requires Faithful(u.log, g, held) && Describes(request, g, held)
    ensures var q := p.(slot := Some(held), signal := Some(request)); SlotSide(q, v) && EngineSide(q, v)
  {
    hide CommittedBy, Faithful, Describes, ReplicaDigests;
  }

  lemma FarRefuses(p: PeripheralState, back: seq<Reply>, u: Provenance, g: nat)
    requires FarSide(p, back, u) && CommittedBy(g, u)
    requires g !in u.applied && (p.slot.Some? ==> u.slotGen < g)
    ensures FarSide(p, back, u.(refused := u.refused + {g}))
  {
    var v := u.(refused := u.refused + {g});
    hide SlotSide, EngineSide, StageSide, ContextSide, BackSide, CommittedBy;
    BackMoves(back, p, u, v);
    OthersIgnore(p, p, u, v);
    CellsRefuse(p, u, v, g);
  }

  lemma FarTakes(p: PeripheralState, back: seq<Reply>, u: Provenance, g: nat, held: Snapshot, request: ApplyRequest)
    requires FarSide(p, back, u) && CommittedBy(g, u) && u.contextGen == g && p.slot.None?
    requires g !in u.applied && g !in u.refused && (p.engine.Some? ==> u.engineGen < g)
    requires Faithful(u.log, g, held) && Describes(request, g, held)
    ensures FarSide(p.(slot := Some(held), signal := Some(request)), back, u.(slotGen := g, signalGen := g))
  {
    var q, v := p.(slot := Some(held), signal := Some(request)), u.(slotGen := g, signalGen := g);
    hide SlotSide, EngineSide, StageSide, ContextSide, BackSide, CommittedBy, Faithful, Describes;
    BackMoves(back, p, u, v);
    OthersIgnore(p, q, u, v);
    CellsTake(p, u, v, g, held, request);
  }

  lemma NotDelta(m: Message, g: u8, r: u32)
    requires InTransaction(m, g, r)
    ensures !m.ContextUpdate? && !IsDiagnostic(m)
  {
  }

  lemma FullDelivered(p: PeripheralState, back: seq<Reply>, t: Provenance, at: InFlight, m: Message, connection: nat)
    requires FarSide(p, back, t) && NotYet(at, t) && Deliverable(t.log, at)
    requires FullAt(t.log, at.gen) && CountsInRange(SnapshotAt(t.log, at.gen))
    requires p.stage.Some? ==> |t.log| < t.stageGen + 256
    requires Arriving(t.log, at) == Ok(m)
    ensures FarSide(Processed(p, Ok(m), connection), back, Noted(t, p, at, Ok(m)))
    ensures Answer(p, Ok(m)).None? && t.contextGen <= Noted(t, p, at, Ok(m)).contextGen
    ensures Processed(p, Ok(m), connection).lastApplied == p.lastApplied
  {
    hide StageStep, Arriving, InTransaction, Faithful, CommittedBy, ReplicaDigests, Byte, Merged, CameWith;
    FarBasics(p, back, t);
    hide FarSide;
    FullArrives(t.log, at);
    NotDelta(m, Byte(at.gen), SnapshotAt(t.log, at.gen).revision);
    FarStages(p, back, t, at, m);
    NewToCells(p, t, at);
    var result, u := StageStep(p.stage, m), StageMoved(t, at, m);
    var q := p.(stage := result.stage);
    if result.output.Some? {
      var out := result.output.value;
      CommitArrives(p, t, at, m, out);
      FarAdopts(q, back, u, at.gen, out, connection);
      MergeFaithful(t.log, at.gen, out, p.context, connection);
      var v, w := u.(contextGen := at.gen), Adopted(q, out, connection);
      CommittedSame(at.gen, u, v);
      if p.slot.Some? {
        FarRefuses(w, back, v, at.gen);
      } else {
        var held := out.snapshot.(context := w.context);
        FarTakes(w, back, v, at.gen, held, ApplyRequest(out.generation, held.revision, ReplicaDigests(held)));
      }
    }
  }

  lemma CommittedSame(g: nat, t: Provenance, u: Provenance)
    requires t.log == u.log && t.rxGen == u.rxGen && t.rxPos == u.rxPos
    ensures CommittedBy(g, t) == CommittedBy(g, u)
  {
    hide PacketsOf;
  }

  /** A delta packet updates or does nothing. */
  lemma DeltaOutcome(p: PeripheralState, t: Provenance, at: InFlight, d: Decoded, connection: nat)
    requires d.Ok? ==> d.value.ContextUpdate?
    ensures var taken := d.Ok? && p.lastApplied == Some(d.value.revision);
            && Processed(p, d, connection) ==
                 (if !taken then p
                  else p.(batteries := d.value.batteries, context := d.value.context.ApplyTo(p.context)))
            && Noted(t, p, at, d) == (if taken then Moved(t, at).(contextGen := at.gen) else Moved(t, at))
            && Answer(p, d) == (if taken then Some(Ack(d.value.generation, d.value.revision)) else None)
  {
    hide StageStep, Committed;
  }

  lemma DeltaDelivered(p: PeripheralState, back: seq<Reply>, t: Provenance, at: InFlight, connection: nat)
    requires FarSide(p, back, t) && NotYet(at, t) && Deliverable(t.log, at) && !FullAt(t.log, at.gen)
    ensures var d := Arriving(t.log, at);
            var q, u, answer := Processed(p, d, connection), Noted(t, p, at, d), Answer(p, d);
            && FarSide(q, back, u)
            && (answer.Some? ==> FarSide(q, back + [Reply(at.gen, answer.value)], u))
            && t.contextGen <= u.contextGen && q.lastApplied == p.lastApplied
  {
    assert Logged(t.log, at.gen) && t.rxGen <= at.gen;
    hide Arriving, Byte, CameWith, Processed, Noted, Answer, FullAt, Deliverable, FarSide;
    FarBasics(p, back, t);
    var d := Arriving(t.log, at);
    DeltaArrives(t.log, at);
    DeltaOutcome(p, t, at, d, connection);
    FarMoves(p, back, t, at);
    if d.Ok? { FarUpdates(p, back, t, at, d.value); }
  }

  lemma BeliefDelivers(c: CentralState, linkUnread: bool, p: PeripheralState, q: PeripheralState, t: Provenance,
                       u: Provenance)
    requires BeliefSide(c, linkUnread, p, t) && q.lastApplied == p.lastApplied && t.contextGen <= u.contextGen
    requires u.log == t.log && u.bootGen == t.bootGen && u.ackedGen == t.ackedGen && u.settledGen == t.settledGen
    requires u.lastGen == t.lastGen
    ensures BeliefSide(c, linkUnread, q, u)
  {
  }

  lemma CentralIgnores(c: CentralState, declared: Snapshot, exported: Option<Snapshot>, unread: bool,
                       t: Provenance, u: Provenance)
    requires CentralSide(c, declared, exported, unread, t)
    requires u.log == t.log && u.ackedGen == t.ackedGen && u.settledGen == t.settledGen
    ensures CentralSide(c, declared, exported, unread, u)
  {
    hide LatestFull, LatestSent, AwaitsLatest, SoundLog, ReplicaDigests, SameDeclared, Sound;
  }

  lemma NotedFrame(t: Provenance, p: PeripheralState, at: InFlight, d: Decoded)
    ensures var u := Noted(t, p, at, d);
            && u.log == t.log && u.ackedGen == t.ackedGen && u.settledGen == t.settledGen
            && u.lastGen == t.lastGen && u.bootGen == t.bootGen
            && u.rxGen == at.gen && u.rxPos == at.idx + 1
  {
    hide StageStep;
  }

  lemma DeliverKeeps(s: State, connection: nat, answered: bool)
    requires Invariant(s) && s.out != []
    requires s.peripheral.stage.Some? ==> |s.trace.log| < s.trace.stageGen + 256
    ensures Deliverable(s.trace.log, s.out[0])
    ensures Invariant(Delivered(s, connection, answered))
  {
    var p, t, at := s.peripheral, s.trace, s.out[0];
    assert Deliverable(t.log, at) && NotYet(at, t) by { hide Deliverable, NotYet; }
    hide Deliverable, NotYet, Arriving, StageStep, ReplicaDigests, CountsInRange;
    var d := Arriving(t.log, at);
    var u := Noted(t, p, at, d);
    NotedFrame(t, p, at, d);
    WireMoves(s.out, t, u);
    CentralIgnores(s.central, s.declared, s.exported, s.lightingUnread, t, u);
    if !FullAt(t.log, at.gen) {
      DeltaDelivered(p, s.back, t, at, connection);
    } else if d.Ok? {
      FullDelivered(p, s.back, t, at, d.value, connection);
    } else {
      FarMoves(p, s.back, t, at);
    }
    hide CentralSide, WireSide, FarSide, Noted, Processed, Answer, FullAt;
    BeliefDelivers(s.central, s.linkUnread, p, Processed(p, d, connection), t, u);
    hide BeliefSide;
  }
}

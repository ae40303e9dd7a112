/** What the packets can carry, and that they carry exactly that. */
module CodecProofs {
  import opened Prelude
  import opened Boards
  import opened Lighting
  import opened Codec

  predicate CarriableEffect(e: Effect) { e.Blink? ==> e.duty <= 100 }

  predicate CarriableBattery(s: BatteryStatus) {
    s.Available? && s.level.Some? ==> s.level.value <= 100
  }

  predicate CarriableParams(p: Option<ExtensionParams>) {
    p.Some? ==> p.value.values != []
  }

  /** Node 63 shares its byte with "no gate" only when its charge gate is
      `UnknownOnly`; a level of 255 reads back as "no bound". */
  predicate CarriableBatteryGate(gate: Option<BatteryCondition>) {
    gate.Some? ==>
      && gate.value.node < 64
      && !(gate.value.node == 63 && gate.value.charge == UnknownOnly)
      && gate.value.minLevel != Some(255)
      && gate.value.maxLevel != Some(255)
  }

  predicate CarriableConnection(c: Option<ConnectionCondition>) {
    c.Some? ==>
      && c.value.NamesAField()
      && (c.value.profile.Some? ==> c.value.profile.value < 128)
      && (c.value.bonded.Some? ==> c.value.bonded.value.slot < 64)
  }

  predicate CarriableConditional(c: ConditionalCell) {
    && WireSlot(c.slot)
    && CarriableEffect(c.effect)
    && (c.conditions.layer.Some? ==> c.conditions.layer.value.layer < 63)
    && CarriableBatteryGate(c.conditions.battery)
  }

  /** The message arrives, though perhaps without the gates its packet has no
      room for. */
  predicate Carriable(m: Message) {
    match m
    case Context(_, _, _, b) => CarriableBattery(b.left) && CarriableBattery(b.right)
    case ContextUpdate(_, _, _, b) => CarriableBattery(b.left) && CarriableBattery(b.right)
    case Extension(_, _, _, p) => CarriableParams(p)
    case ExtensionOverlay(_, _, _, p) => CarriableParams(p)
    case Cell(_, _, c) => WireSlot(c.slot) && CarriableEffect(c.effect)
    case TableCell(_, _, c) => WireSlot(c.slot) && CarriableEffect(c.effect)
    case Conditional(_, _, c) => CarriableConditional(c)
    case ConditionalExt(_, _, c, _) => CarriableConnection(c)
    case EffectHit(slot) => slot < TOTAL_LEDS
    case FrameChunk(_, _, _, _, len, _) => len <= FRAME_CHUNK_CELLS
    case DebugPanicLoc(len, _) => len <= 23
    case _ => true
  }

  /** The gates a conditional cell's own packet carries. */
  function PacketGates(c: ConditionSet): ConditionSet {
    c.(connection := None, effects := None, layers := None, indicators := None,
       maintenance := None, splitTransport := None)
  }

  /** The message as the other half sees it. */
  function Carried(m: Message): Message {
    if m.Conditional? then
      m.(conditionalCell := m.conditionalCell.(conditions := PacketGates(m.conditionalCell.conditions)))
    else m
  }

  /** Everything in the message crosses: it is carriable, and a conditional
      cell holds no gate its packet leaves out. */
  predicate Representable(m: Message) {
    && Carriable(m)
    && (m.Conditional? ==> PacketGates(m.conditionalCell.conditions) == m.conditionalCell.conditions)
  }

  // ---- Fields ----

  lemma EffectRoundTrip(e: Effect)
    ensures var back := MakeEffect(EffectKind(e), e.color, EffectPeriod(e), EffectPhase(e), EffectAuxiliary(e));
            back == if CarriableEffect(e) then Some(e) else None
  {
  }

  lemma BackgroundRoundTrip(b: Background)
    ensures MakeBackground(BackgroundByte(b), b.hue, b.saturation, b.value, b.speed) == b
  {
  }

  lemma IndicatorsRoundTrip(i: Indicators)
    ensures MakeIndicators(IndicatorByte(i)) == i
  {
  }

  lemma BatteryRoundTrip(s: BatteryStatus)
    ensures MakeBattery(BatteryStateByte(s), BatteryLevelByte(s)) == Some(s) <==> CarriableBattery(s)
  {
  }

  lemma LayerGateRoundTrip(layer: Option<LayerCondition>, e: Effect)
    ensures MakeLayerGate(LayerGateByte(layer, e)) == layer <==> (layer.Some? ==> layer.value.layer < 63)
    ensures LayerGateByte(layer, e) / 128 == BoolByte(e.Breathe?)
  {
  }

  lemma BatteryGateRoundTrip(gate: Option<BatteryCondition>)
    ensures MakeBatteryGate(BatteryNodeByte(gate), MinLevelByte(gate), MaxLevelByte(gate)) == gate
            <==> CarriableBatteryGate(gate)
  {
  }

  lemma LowSlot(slot: u16, flag: bool)
    requires slot < 128
    ensures OrTopBit(slot, flag) == slot + (if flag then 128 else 0)
    ensures OrTopBit(slot, flag) % 128 == slot && OrTopBit(slot, flag) / 128 == BoolByte(flag)
  {
    assert slot % 0x100 == slot;
    var byte := slot + (if flag then 128 else 0);
    assert byte == 128 * BoolByte(flag) + slot;
  }

  lemma SlotWithKindRoundTrip(slot: u16, layer: Option<LayerCondition>, e: Effect)
    ensures var slotByte := OrTopBit(slot, e.Blink?);
            && (WireSlot(slot) ==>
              PackedSlot(slotByte) == slot && PackedKind(slotByte, LayerGateByte(layer, e)) == EffectKind(e))
            && (WireSlot(PackedSlot(slotByte)) && PackedSlot(slotByte) == slot ==> WireSlot(slot))
  {
    if WireSlot(slot) { LowSlot(slot, e.Blink?); }
    LayerGateRoundTrip(layer, e);
    hide OrTopBit, LayerGateByte;
  }

  lemma GatesRoundTrip(c: ConnectionCondition, effects: Option<EffectsCondition>)
    ensures var byte := ConnectionGatesByte(c, effects);
            && MakeTransport(byte) == Some(c.transport)
            && MakeBleState(byte) == Some(c.bleState)
            && MakeEffectsGate(byte) == effects
  {
    var byte := ConnectionGatesByte(c, effects);
    var low := if c.transport.None? then 0 else TransportByte(c.transport.value);
    var mid := if c.bleState.None? then 0 else BleStateByte(c.bleState.value);
    var fx := if effects.None? then 0 else 2 + BoolByte(effects.value.enabled);
    GateFields(byte, c.transport.Some?, c.bleState.Some?, fx, mid, low);
    hide ConnectionGatesByte, BitSet;
  }

  lemma GateFields(byte: u8, top: bool, next: bool, fx: nat, mid: nat, low: nat)
    requires fx < 4 && mid < 4 && low < 4
    requires byte == 128 * BoolByte(top) + 64 * BoolByte(next) + 16 * fx + 4 * mid + low
    ensures BitSet(byte, 128) == top && BitSet(byte, 64) == next
    ensures BitSet(byte, 32) == (fx >= 2) && BitSet(byte, 16) == (fx % 2 == 1)
    ensures byte / 4 % 4 == mid && byte % 4 == low
  {
    assert byte / 4 == 32 * BoolByte(top) + 16 * BoolByte(next) + 4 * fx + mid;
    assert byte / 16 == 8 * BoolByte(top) + 4 * BoolByte(next) + fx;
    assert byte / 32 == 4 * BoolByte(top) + 2 * BoolByte(next) + fx / 2;
    assert byte / 64 == 2 * BoolByte(top) + BoolByte(next);
    assert byte / 128 == BoolByte(top);
  }

  lemma ProfileRoundTrip(profile: Option<u8>)
    ensures MakeProfile(ProfileByte(profile)).Some? == profile.Some?
    ensures MakeProfile(ProfileByte(profile)) == profile <==> (profile.Some? ==> profile.value < 128)
  {
  }

  lemma BondedRoundTrip(bonded: Option<BondedSlotCondition>)
    ensures MakeBonded(BondedByte(bonded)).Some? == bonded.Some?
    ensures MakeBonded(BondedByte(bonded)) == bonded <==> (bonded.Some? ==> bonded.value.slot < 64)
  {
  }

  lemma SlotByte(slot: u16)
    ensures B0(slot) == slot <==> slot < 0x100
  {
  }

  lemma {:induction false} ParamsRoundTrip(p: Option<ExtensionParams>)
    ensures MakeParams(ParamLength(p), ParamEffect(p), ParamBlock(p)) == p <==> CarriableParams(p)
  {
    if p.Some? {
      assert ParamBlock(p)[..|p.value.values|] == p.value.values;
    }
  }

  // ---- Messages ----

  /** What the decoder for a message's kind makes of its packet. */
  function Reading(m: Message): Decoded {
    match m
    case Begin(_, _, _, _, _, _, _, _) => DecodeBegin(BeginBytes(m))
    case WakeLayers(_, _, _) => DecodeWakeLayers(WakeLayersBytes(m))
    case Context(g, r, c, b) => DecodeReplicated(ContextBytes(TAG_CONTEXT, g, r, c, b))
    case ContextUpdate(g, r, c, b) => DecodeReplicated(ContextBytes(TAG_CONTEXT_UPDATE, g, r, c, b))
    case Extension(_, _, _, p) => DecodeExtension(ExtensionHead(m) + ParamBlock(p))
    case ExtensionOverlay(_, _, _, p) => DecodeExtensionOverlay(ExtensionOverlayHead(m) + ParamBlock(p))
    case Cell(_, _, _) => DecodeCell(CellBytes(m))
    case TableCell(_, _, _) => DecodeTableCell(TableCellBytes(m))
    case ConditionalBegin(_, _, _) => DecodeConditionalBegin(ConditionalBeginBytes(m))
    case Conditional(_, _, _) => DecodeConditional(ConditionalBytes(m))
    case ConditionalExt(_, _, _, _) => DecodeConditionalExt(ConditionalExtBytes(m))
    case Commit(_, _, _, _) => DecodeCommit(CommitBytes(m))
    case Ack(_, _) => DecodeAck(AckBytes(m))
    case EffectHit(slot) => if B0(slot) < TOTAL_LEDS then Ok(EffectHit(B0(slot))) else Err(BadLength)
    case Attestation(_, _) => DecodeAttestation(AttestationBytes(m))
    case ReplicaProbe(_) => Ok(m)
    case StatusRequest(_) => Ok(m)
    case StatusReport(_, _, _, _, _, _, _) => DecodeStatusReport(StatusReportBytes(m))
    case FrameChunkRequest(_, _) => DecodeFrameChunkRequest(FrameChunkRequestBytes(m))
    case FrameChunk(_, _, _, _, _, _) => DecodeFrameChunk(FrameChunkBytes(m))
    case TransportStatus(_, _) => DecodeTransportStatus(TransportStatusBytes(m))
    case DebugTrace(_, _, _, _) => DecodeDebugTrace(DebugTraceBytes(m))
    case DebugPanicLoc(_, _) => DecodeDebugPanicLoc(DebugPanicLocBytes(m))
  }

  /** Tags and lengths tell the packets apart. */
  lemma OwnReading(m: Message)
    ensures Decode(Encode(m)) == Reading(m)
  {
    hide BeginBytes, WakeLayersBytes, ContextBytes, ExtensionHead, ExtensionOverlayHead, CellBytes, TableCellBytes,
      ConditionalBeginBytes, ConditionalBytes, ConditionalExtBytes, CommitBytes, AckBytes, AttestationBytes,
      StatusReportBytes, FrameChunkRequestBytes, FrameChunkBytes, TransportStatusBytes, DebugTraceBytes,
      DebugPanicLocBytes, ParamBlock, B0;
    hide DecodeBegin, DecodeWakeLayers, DecodeReplicated, DecodeExtension, DecodeExtensionOverlay, DecodeCell,
      DecodeTableCell, DecodeConditionalBegin, DecodeConditional, DecodeConditionalExt, DecodeCommit, DecodeAck,
      DecodeAttestation, DecodeStatusReport, DecodeFrameChunkRequest, DecodeFrameChunk, DecodeTransportStatus,
      DecodeDebugTrace, DecodeDebugPanicLoc;
  }

  lemma HeadAndBlock(head: seq<u8>, block: seq<u8>, n: nat)
    requires |head| == n
    ensures (head + block)[n..] == block && (forall i :: 0 <= i < n ==> (head + block)[i] == head[i])
    ensures n >= 7 ==> U32At(head + block, 3) == U32At(head, 3)
  {
  }

  lemma ExtensionFields(m: Message)
    requires m.Extension?
    ensures var h := ExtensionHead(m);
            && h[0] == VERSION && h[1] == TAG_EXTENSION && h[2] == m.generation && U32At(h, 3) == m.revision
            && h[12] == ParamLength(m.params) && h[13] == ParamEffect(m.params)
            && h[7] == BoolByte(m.extension.Some?)
            && (m.extension.Some? ==> ExtensionState(h[8], h[9], h[10], h[11]) == m.extension.value)
  {
    Bytes32(m.revision);
    hide B0, B1, B2, B3, Join32, ParamLength, ParamEffect;
  }

  lemma ExtensionOverlayFields(m: Message)
    requires m.ExtensionOverlay?
    ensures var h := ExtensionOverlayHead(m);
            && h[0] == VERSION && h[1] == TAG_EXTENSION_OVERLAY && h[2] == m.generation && U32At(h, 3) == m.revision
            && h[7] == BoolByte(m.overlay.Some?) && h[8] == m.overlay.UnwrapOr(0)
            && h[9] == ParamLength(m.params) && h[10] == ParamEffect(m.params)
  {
    Bytes32(m.revision);
    hide B0, B1, B2, B3, Join32, ParamLength, ParamEffect;
  }

  lemma ExtensionPacket(m: Message)
    requires m.Extension?
    ensures var d := DecodeExtension(ExtensionHead(m) + ParamBlock(m.params));
            d.Ok? && (d == Ok(m) <==> Carriable(m)) && SameHeader(d.value, m)
  {
    ParamsRoundTrip(m.params);
    ExtensionFields(m);
    HeadAndBlock(ExtensionHead(m), ParamBlock(m.params), 14);
    hide ParamBlock, ParamEffect, MakeParams, U32At, ExtensionHead;
  }

  lemma ExtensionOverlayPacket(m: Message)
    requires m.ExtensionOverlay?
    ensures var d := DecodeExtensionOverlay(ExtensionOverlayHead(m) + ParamBlock(m.params));
            d.Ok? && (d == Ok(m) <==> Carriable(m)) && SameHeader(d.value, m)
  {
    ParamsRoundTrip(m.params);
    ExtensionOverlayFields(m);
    HeadAndBlock(ExtensionOverlayHead(m), ParamBlock(m.params), 11);
    hide ParamBlock, ParamEffect, MakeParams, U32At, ExtensionOverlayHead;
  }

  lemma CellPacket(m: Message)
    requires m.Cell?
    ensures DecodeCell(CellBytes(m)) == Ok(m) <==> Carriable(m)
    ensures DecodeCell(CellBytes(m)).Ok? ==> SameHeader(DecodeCell(CellBytes(m)).value, m)
  {
    hide B0, B1, B2, B3, Join16, Join32;
    var e := m.cell.effect;
    Bytes32(m.revision);
    Bytes32(EffectPeriod(e));
    Bytes32(EffectPhase(e));
    Bytes16(EffectAuxiliary(e));
    EffectRoundTrip(e);
    SlotByte(m.cell.slot);
    Bytes32(TtlValue(m.cell.ttlMs));
  }

  lemma TableCellPacket(m: Message)
    requires m.TableCell?
    ensures DecodeTableCell(TableCellBytes(m)) == Ok(m) <==> Carriable(m)
    ensures DecodeTableCell(TableCellBytes(m)).Ok? ==> SameHeader(DecodeTableCell(TableCellBytes(m)).value, m)
  {
    hide B0, B1, B2, B3, Join16, Join32;
    var e := m.sceneCell.effect;
    Bytes32(m.revision);
    Bytes32(EffectPeriod(e));
    Bytes32(EffectPhase(e));
    Bytes16(EffectAuxiliary(e));
    EffectRoundTrip(e);
    SlotByte(m.sceneCell.slot);
  }

  lemma ConditionalFields(m: Message)
    requires m.Conditional?
    ensures var b, c := ConditionalBytes(m), m.conditionalCell;
            && b[2] == m.generation && U32At(b, 3) == m.revision
            && b[7] == OrTopBit(c.slot, c.effect.Blink?) && b[8] == LayerGateByte(c.conditions.layer, c.effect)
            && b[9] == BatteryNodeByte(c.conditions.battery)
            && b[10] == MinLevelByte(c.conditions.battery) && b[11] == MaxLevelByte(c.conditions.battery)
            && Rgb8(b[12], b[13], b[14]) == c.effect.color
            && U32At(b, 15) == EffectPeriod(c.effect) && U32At(b, 19) == EffectPhase(c.effect)
            && U16At(b, 23) == EffectAuxiliary(c.effect) && b[25] == OutputModeGateByte(c.conditions.outputMode)
  {
    var e := m.conditionalCell.effect;
    Bytes32(m.revision);
    Bytes32(EffectPeriod(e));
    Bytes32(EffectPhase(e));
    Bytes16(EffectAuxiliary(e));
    hide B0, B1, B2, B3, Join16, Join32;
    hide OrTopBit, LayerGateByte, BatteryNodeByte, MinLevelByte, MaxLevelByte, OutputModeGateByte;
    hide EffectPeriod, EffectPhase, EffectAuxiliary;
  }

  /** What the fields of a conditional packet decode to. */
  lemma ConditionalDecodes(b: seq<u8>, g: u8, r: u32, c: ConditionalCell)
    requires |b| == 26 && b[2] == g && U32At(b, 3) == r
    requires PackedSlot(b[7]) == c.slot
    requires MakeEffect(PackedKind(b[7], b[8]), Rgb8(b[12], b[13], b[14]), U32At(b, 15), U32At(b, 19), U16At(b, 23))
             == if CarriableEffect(c.effect) then Some(c.effect) else None
    requires b[25] == OutputModeGateByte(c.conditions.outputMode)
    requires WireSlot(c.slot)
    ensures var gates := PacketGates(c.conditions).(layer := MakeLayerGate(b[8]), battery := MakeBatteryGate(b[9],
      b[10], b[11]));
            DecodeConditional(b) ==
            if CarriableEffect(c.effect) then Ok(Conditional(g, r, ConditionalCell(gates, c.slot,
              c.effect))) else Err(BadValue)
  {
    hide U32At, U16At, MakeEffect, MakeLayerGate, MakeBatteryGate, PackedSlot, PackedKind, CarriableEffect;
  }

  lemma ConditionalOnWire(m: Message)
    requires m.Conditional? && WireSlot(m.conditionalCell.slot)
    ensures DecodeConditional(ConditionalBytes(m)) == Ok(Carried(m)) <==> Carriable(m)
    ensures DecodeConditional(ConditionalBytes(m)).Ok? ==> SameHeader(DecodeConditional(ConditionalBytes(m)).value, m)
  {
    var c, b := m.conditionalCell, ConditionalBytes(m);
    ConditionalFields(m);
    EffectRoundTrip(c.effect);
    LayerGateRoundTrip(c.conditions.layer, c.effect);
    BatteryGateRoundTrip(c.conditions.battery);
    SlotWithKindRoundTrip(c.slot, c.conditions.layer, c.effect);
    hide *;
    ConditionalDecodes(b, m.generation, m.revision, c);
    CarriedConditional(m);
    if DecodeConditional(b).Ok? { ConditionalHeader(DecodeConditional(b).value, m); }
  }

  lemma CarriedConditional(m: Message)
    requires m.Conditional? && WireSlot(m.conditionalCell.slot)
    ensures Carried(m) == Conditional(m.generation, m.revision,
              ConditionalCell(PacketGates(m.conditionalCell.conditions), m.conditionalCell.slot,
                m.conditionalCell.effect))
    ensures var gates, c := m.conditionalCell.conditions, m.conditionalCell;
            Carriable(m) <==> CarriableEffect(c.effect) && (gates.layer.Some? ==> gates.layer.value.layer < 63)
                              && CarriableBatteryGate(gates.battery)
    ensures PacketGates(m.conditionalCell.conditions).layer == m.conditionalCell.conditions.layer
    ensures PacketGates(m.conditionalCell.conditions).battery == m.conditionalCell.conditions.battery
  {
    hide CarriableEffect, CarriableBatteryGate;
  }

  lemma ConditionalStaysOnWire(b: seq<u8>)
    requires |b| == 26
    ensures var d := DecodeConditional(b);
            d.Ok? ==> d.value.Conditional? && d.value.generation == b[2] && d.value.revision == U32At(b, 3)
                      && WireSlot(d.value.conditionalCell.slot)
                      && PacketGates(d.value.conditionalCell.conditions) == d.value.conditionalCell.conditions
  {
    hide U32At, U16At, MakeEffect, MakeLayerGate, MakeBatteryGate, PackedSlot, PackedKind;
  }

  lemma ConditionalOffWire(m: Message)
    requires m.Conditional? && !WireSlot(m.conditionalCell.slot)
    ensures DecodeConditional(ConditionalBytes(m)) != Ok(Carried(m)) && !Carriable(m)
    ensures DecodeConditional(ConditionalBytes(m)).Ok? ==> SameHeader(DecodeConditional(ConditionalBytes(m)).value, m)
  {
    ConditionalFields(m);
    ConditionalStaysOnWire(ConditionalBytes(m));
    OffWireNotCarried(m);
    hide *;
    var d := DecodeConditional(ConditionalBytes(m));
    if d.Ok? { ConditionalHeader(d.value, m); }
  }

  lemma OffWireNotCarried(m: Message)
    requires m.Conditional? && !WireSlot(m.conditionalCell.slot)
    ensures !Carriable(m) && Carried(m).Conditional? && Carried(m).conditionalCell.slot == m.conditionalCell.slot
  {
    hide CarriableEffect, CarriableBatteryGate, WireSlot;
  }

  lemma ConditionalHeader(a: Message, m: Message)
    requires m.Conditional? && a.Conditional? && a.generation == m.generation && a.revision == m.revision
    ensures SameHeader(a, m)
  {
  }

  lemma ConditionalPacket(m: Message)
    requires m.Conditional?
    ensures DecodeConditional(ConditionalBytes(m)) == Ok(Carried(m)) <==> Carriable(m)
    ensures DecodeConditional(ConditionalBytes(m)).Ok? ==> SameHeader(DecodeConditional(ConditionalBytes(m)).value, m)
  {
    hide *;
    if WireSlot(m.conditionalCell.slot) { ConditionalOnWire(m); } else { ConditionalOffWire(m); }
  }

  lemma ConditionalExtPacket(m: Message)
    requires m.ConditionalExt?
    ensures DecodeConditionalExt(ConditionalExtBytes(m)) == Ok(m) <==> Carriable(m)
    ensures var d := DecodeConditionalExt(ConditionalExtBytes(m)); d.Ok? && SameHeader(d.value, m)
  {
    hide B0, B1, B2, B3, Join32;
    hide ConnectionGatesByte, MakeTransport, MakeBleState, MakeEffectsGate;
    hide ProfileByte, BondedByte, MakeProfile, MakeBonded;
    var c := m.connection.UnwrapOr(NoConnectionFields);
    Bytes32(m.revision);
    GatesRoundTrip(c, m.effects);
    ProfileRoundTrip(c.profile);
    BondedRoundTrip(c.bonded);
  }

  lemma ContextRoundTrip(tag: u8, g: u8, r: u32, c: ReplicatedContext, b: BatteryPair)
    ensures var bytes := ContextBytes(tag, g, r, c, b);
            && |bytes| == 24 && bytes[0] == VERSION && bytes[1] == tag && bytes[2] == g && U32At(bytes, 3) == r
            && (DecodeContext(bytes) == Some((c, b)) <==> CarriableBattery(b.left) && CarriableBattery(b.right))
  {
    hide B0, B1, B2, B3, Join32;
    hide IndicatorByte, MakeIndicators, BatteryStateByte, BatteryLevelByte, MakeBattery;
    Bytes32(r);
    IndicatorsRoundTrip(c.indicators);
    BatteryRoundTrip(b.left);
    BatteryRoundTrip(b.right);
  }

  lemma ContextPackets(m: Message)
    requires m.Context? || m.ContextUpdate?
    ensures var tag := if m.Context? then TAG_CONTEXT else TAG_CONTEXT_UPDATE;
            var d := DecodeReplicated(ContextBytes(tag, m.generation, m.revision, m.context, m.batteries));
            (d == Ok(m) <==> Carriable(m)) && (d.Ok? ==> SameHeader(d.value, m))
  {
    hide ContextBytes, DecodeContext, U32At;
    ContextRoundTrip(if m.Context? then TAG_CONTEXT else TAG_CONTEXT_UPDATE,
                     m.generation, m.revision, m.context, m.batteries);
  }

  lemma BeginPacket(m: Message)
    requires m.Begin?
    ensures DecodeBegin(BeginBytes(m)) == Ok(m)
  {
    hide B0, B1, B2, B3, B4, B5, B6, B7, Join32, Join64, BackgroundByte, MakeBackground;
    Bytes32(m.revision);
    Bytes64(m.sampleTimeMs);
    BackgroundRoundTrip(m.mutable.background);
    var bytes := BeginBytes(m);
    assert U32At(bytes, 3) == m.revision && U64At(bytes, 8) == m.sampleTimeMs;
    assert DecodeBegin(bytes) == Ok(m);
  }

  lemma WakeLayersPacket(m: Message)
    requires m.WakeLayers?
    ensures DecodeWakeLayers(WakeLayersBytes(m)) == Ok(m)
  {
    hide B0, B1, B2, B3, B4, B5, B6, B7, Join32, Join64;
    Bytes32(m.revision);
    Bytes64(m.wakeLayers);
  }

  lemma FramingPackets(m: Message)
    ensures m.ConditionalBegin? ==> DecodeConditionalBegin(ConditionalBeginBytes(m)) == Ok(m)
    ensures m.Commit? ==> DecodeCommit(CommitBytes(m)) == Ok(m)
    ensures m.Ack? ==> DecodeAck(AckBytes(m)) == Ok(m)
  {
    hide B0, B1, B2, B3, Join32;
    if m.ConditionalBegin? || m.Commit? || m.Ack? { Bytes32(m.revision); }
  }

  lemma AttestationPacket(m: Message)
    requires m.Attestation?
    ensures DecodeAttestation(AttestationBytes(m)) == Ok(m)
  {
    hide B0, B1, B2, B3, Join32;
    Bytes32(m.digests.revision);
    Bytes32(m.digests.settings);
    Bytes32(m.digests.overlay);
    Bytes32(m.digests.scenes);
    Bytes32(m.digests.conditionalScenes);
  }

  lemma StatusReportPacket(m: Message)
    requires m.StatusReport?
    ensures DecodeStatusReport(StatusReportBytes(m)) == Ok(m)
  {
    hide B0, B1, B2, B3, B4, B5, B6, B7, Join32, Join64;
    Bytes32(m.appliedRevision.UnwrapOr(0));
    Bytes32(m.engineRevision);
    Bytes64(m.layers.active);
  }

  lemma FrameChunkPacket(m: Message)
    requires m.FrameChunk?
    ensures DecodeFrameChunk(FrameChunkBytes(m)) == Ok(m) <==> Carriable(m)
  {
    hide B0, B1, B2, B3, Join16, Join32;
    Bytes32(m.chunkRevision.UnwrapOr(0));
    Bytes16(m.total);
    Bytes16(m.start);
    var c := m.cells;
    assert c == [Rgb8(c[0].r, c[0].g, c[0].b), Rgb8(c[1].r, c[1].g, c[1].b),
                 Rgb8(c[2].r, c[2].g, c[2].b), Rgb8(c[3].r, c[3].g, c[3].b)];
  }

  lemma FrameChunkRequestPacket(m: Message)
    requires m.FrameChunkRequest?
    ensures DecodeFrameChunkRequest(FrameChunkRequestBytes(m)) == Ok(m)
  {
    hide B0, B1, Join16;
    Bytes16(m.offset);
  }

  lemma DebugTracePacket(m: Message)
    requires m.DebugTrace?
    ensures DecodeDebugTrace(DebugTraceBytes(m)) == Ok(m)
  {
    hide B0, B1, B2, B3, Join32;
    Bytes32(m.stage);
    Bytes32(m.boots);
    Bytes32(m.rr.0);
    Bytes32(m.rr.1);
    Bytes32(m.cause.0);
    Bytes32(m.cause.1);
  }

  lemma RelayPackets(m: Message)
    ensures m.TransportStatus? ==> DecodeTransportStatus(TransportStatusBytes(m)) == Ok(m)
    ensures m.DebugPanicLoc? ==> (DecodeDebugPanicLoc(DebugPanicLocBytes(m)) == Ok(m) <==> Carriable(m))
  {
    if m.DebugPanicLoc? {
      assert DebugPanicLocBytes(m)[3..26] == m.text;
    }
  }

  /** Both messages carry the same tag, generation and revision. */
  predicate SameHeader(a: Message, b: Message) {
    match b
    case Begin(_, _, _, _, _, _, _, _) => a == b
    case WakeLayers(_, _, _) => a == b
    case Context(g, r, _, _) => a.Context? && a.generation == g && a.revision == r
    case ContextUpdate(g, r, _, _) => a.ContextUpdate? && a.generation == g && a.revision == r
    case Extension(g, r, _, _) => a.Extension? && a.generation == g && a.revision == r
    case ExtensionOverlay(g, r, _, _) => a.ExtensionOverlay? && a.generation == g && a.revision == r
    case Cell(g, r, _) => a.Cell? && a.generation == g && a.revision == r
    case TableCell(g, r, _) => a.TableCell? && a.generation == g && a.revision == r
    case ConditionalBegin(_, _, _) => a == b
    case Conditional(g, r, _) => a.Conditional? && a.generation == g && a.revision == r
    case ConditionalExt(g, r, _, _) => a.ConditionalExt? && a.generation == g && a.revision == r
    case Commit(_, _, _, _) => a == b
    case Ack(_, _) => a == b
    case _ => true
  }

  lemma ReadingCarries(m: Message)
    ensures Reading(m) == Ok(Carried(m)) <==> Carriable(m)
    ensures Reading(m).Ok? ==> SameHeader(Reading(m).value, m)
  {
    hide BeginBytes, WakeLayersBytes, ContextBytes, ExtensionHead, ExtensionOverlayHead, CellBytes, TableCellBytes,
      ConditionalBeginBytes, ConditionalBytes, ConditionalExtBytes, CommitBytes, AckBytes, AttestationBytes,
      StatusReportBytes, FrameChunkRequestBytes, FrameChunkBytes, TransportStatusBytes, DebugTraceBytes,
      DebugPanicLocBytes, ParamBlock, B0;
    hide DecodeBegin, DecodeWakeLayers, DecodeReplicated, DecodeExtension, DecodeExtensionOverlay, DecodeCell,
      DecodeTableCell, DecodeConditionalBegin, DecodeConditional, DecodeConditionalExt, DecodeCommit, DecodeAck,
      DecodeAttestation, DecodeStatusReport, DecodeFrameChunkRequest, DecodeFrameChunk, DecodeTransportStatus,
      DecodeDebugTrace, DecodeDebugPanicLoc;
    match m
    case Extension(_, _, _, _) => ExtensionPacket(m);
    case ExtensionOverlay(_, _, _, _) => ExtensionOverlayPacket(m);
    case Cell(_, _, _) => CellPacket(m);
    case TableCell(_, _, _) => TableCellPacket(m);
    case Conditional(_, _, _) => ConditionalPacket(m);
    case ConditionalExt(_, _, _, _) => ConditionalExtPacket(m);
    case Context(_, _, _, _) => ContextPackets(m);
    case ContextUpdate(_, _, _, _) => ContextPackets(m);
    case Begin(_, _, _, _, _, _, _, _) => BeginPacket(m);
    case WakeLayers(_, _, _) => WakeLayersPacket(m);
    case Attestation(_, _) => AttestationPacket(m);
    case StatusReport(_, _, _, _, _, _, _) => StatusReportPacket(m);
    case FrameChunkRequest(_, _) => FrameChunkRequestPacket(m);
    case FrameChunk(_, _, _, _, _, _) => FrameChunkPacket(m);
    case DebugTrace(_, _, _, _) => DebugTracePacket(m);
    case EffectHit(slot) => SlotByte(slot);
    case _ => FramingPackets(m); RelayPackets(m);
  }

  /** A message reaches the other half, less the gates its packet leaves out,
      exactly when it is carriable. */
  lemma CodecCarries(m: Message)
    ensures Decode(Encode(m)) == Ok(Carried(m)) <==> Carriable(m)
  {
    hide *;
    OwnReading(m);
    ReadingCarries(m);
  }

  /** The round trip over every message: it succeeds exactly on `Representable`. */
  lemma CodecRoundTrip(m: Message)
    ensures Decode(Encode(m)) == Ok(m) <==> Representable(m)
  {
    hide Decode, Encode, Carriable, ConditionalBytes, DecodeConditional, PacketGates;
    CodecCarries(m);
    if m.Conditional? {
      OwnReading(m);
      ConditionalStaysOnWire(ConditionalBytes(m));
    }
  }

  /** Whatever a transaction packet decodes to, it stays in its transaction. */
  lemma CodecKeepsHeader(m: Message)
    ensures Decode(Encode(m)).Ok? ==> SameHeader(Decode(Encode(m)).value, m)
  {
    hide *;
    OwnReading(m);
    ReadingCarries(m);
  }

  lemma BatteryGateDecodes(node: u8, minLevel: u8, maxLevel: u8)
    ensures CarriableBatteryGate(MakeBatteryGate(node, minLevel, maxLevel))
  {
  }

  /** The decoder produces only what the encoder can carry, whatever bytes
      arrive, so decoding is the exact inverse of encoding on its image. */
  lemma DecodedIsRepresentable(b: seq<u8>)
    requires Decode(b).Ok?
    ensures Representable(Decode(b).value)
    ensures Decode(Encode(Decode(b).value)) == Decode(b)
  {
    DecodedShape(b);
    hide Decode, Encode, Representable;
    CodecRoundTrip(Decode(b).value);
  }

  lemma DecodedShape(b: seq<u8>)
    requires Decode(b).Ok?
    ensures Representable(Decode(b).value)
  {
    hide U16At, U32At, U64At, MakeBatteryGate, CarriableBatteryGate;
    if |b| == 26 {
      BatteryGateDecodes(b[9], b[10], b[11]);
    }
  }

  // ---- Unknown tags ----

  /** When a packet is said to have an unknown tag: its tag is not one of the 23,
      or it is a wake-layers packet of the wrong length. */
  lemma UnknownTagExactly(b: seq<u8>)
    ensures Decode(b) == Err(BadTag) <==>
            && |b| >= 2 && b[0] == VERSION
            && (b[1] == 0 || b[1] > 23 || (b[1] == TAG_WAKE_LAYERS && |b| != 15))
  {
    hide MakeEffect, MakeBattery, U32At, U64At;
  }

  /** An example: packets cut to three bytes. */
  lemma CutShort(g: u8, tag: u8)
    requires 1 <= tag <= 23
    ensures Decode([VERSION, tag, g]) == Err(BadTag) <==> tag == TAG_WAKE_LAYERS
  {
    UnknownTagExactly([VERSION, tag, g]);
    hide Decode;
  }
}

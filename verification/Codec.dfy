/** The packets of the split link and their byte form.

    A bit field is written as the arithmetic it stands for: `x & 0x3f` is
    `x % 64`, `flag << 6` is `64 * flag`, and an OR of fields that cannot
    overlap is their sum. The one OR whose operands can overlap is `OrTopBit`. */
module Codec {
  import opened Prelude
  import opened Boards
  import opened Lighting

  const VERSION: u8 := 11
  const TAG_BEGIN: u8 := 1
  const TAG_CONTEXT: u8 := 2
  const TAG_CELL: u8 := 3
  const TAG_COMMIT: u8 := 4
  const TAG_ACK: u8 := 5
  const TAG_SCENE_CELL: u8 := 6
  const TAG_EXTENSION: u8 := 7
  const TAG_CONDITIONAL_SCENE_BEGIN: u8 := 8
  const TAG_CONDITIONAL_SCENE_CELL: u8 := 9
  const TAG_EXTENSION_OVERLAY: u8 := 10
  const TAG_EFFECT_HIT: u8 := 11
  const TAG_CONTEXT_UPDATE: u8 := 12
  const TAG_CONDITIONAL_SCENE_EXT: u8 := 13
  const TAG_ATTESTATION: u8 := 14
  const TAG_REPLICA_PROBE: u8 := 15
  const TAG_STATUS_REQUEST: u8 := 16
  const TAG_STATUS_REPORT: u8 := 17
  const TAG_FRAME_CHUNK_REQUEST: u8 := 18
  const TAG_FRAME_CHUNK: u8 := 19
  const TAG_WAKE_LAYERS: u8 := 20
  const TAG_TRANSPORT_STATUS: u8 := 21
  const TAG_DEBUG_TRACE: u8 := 22
  const TAG_DEBUG_PANIC_LOC: u8 := 23

  const MESSAGE_MAX: nat := 26
  const FRAME_CHUNK_CELLS: nat := 4

  type ChunkCells = s: seq<Rgb8> | |s| == 4
    witness [Rgb8(0, 0, 0), Rgb8(0, 0, 0), Rgb8(0, 0, 0), Rgb8(0, 0, 0)]

  type PanicText = s: seq<u8> | |s| == 23 witness seq(23, _ => 0)

  datatype Message =
    | Begin(generation: u8, revision: u32, cellCount: u8, sceneCount: u8, scenePolicy: LayerPolicy,
            sampleTimeMs: u64, mutable: Mutable, outputMode: OutputMode)
    | WakeLayers(generation: u8, revision: u32, wakeLayers: u64)
    | Context(generation: u8, revision: u32, context: ReplicatedContext, batteries: BatteryPair)
    | ContextUpdate(generation: u8, revision: u32, context: ReplicatedContext, batteries: BatteryPair)
    | Extension(generation: u8, revision: u32, extension: Option<ExtensionState>, params: Option<ExtensionParams>)
    | ExtensionOverlay(generation: u8, revision: u32, overlay: Option<u8>, params: Option<ExtensionParams>)
    | Cell(generation: u8, revision: u32, cell: OverlayCell)
    | TableCell(generation: u8, revision: u32, sceneCell: SceneCell)
    | ConditionalBegin(generation: u8, revision: u32, cellCount: u8)
    | Conditional(generation: u8, revision: u32, conditionalCell: ConditionalCell)
    | ConditionalExt(generation: u8, revision: u32,
                     connection: Option<ConnectionCondition>, effects: Option<EffectsCondition>)
    | Commit(generation: u8, revision: u32, cellCount: u8, sceneCount: u8)
    | Ack(generation: u8, revision: u32)
    | EffectHit(slot: u16)
    | Attestation(generation: u8, digests: Digests)
    | ReplicaProbe(generation: u8)
    | StatusRequest(requestId: u8)
    | StatusReport(requestId: u8, appliedRevision: Option<u32>, engineRevision: u32, layers: LayerState,
                   powered: bool, wakeActive: bool, effectiveOutputEnabled: bool)
    | FrameChunkRequest(requestId: u8, offset: u16)
    | FrameChunk(requestId: u8, chunkRevision: Option<u32>, total: u16, start: u16, len: u8, cells: ChunkCells)
    | TransportStatus(auto: bool, wired: bool)
    | DebugTrace(stage: u32, boots: u32, rr: (u32, u32), cause: (u32, u32))
    | DebugPanicLoc(len: u8, text: PanicText)

  datatype DecodeError = BadVersion | BadTag | BadLength | BadValue

  type Decoded = Result<Message, DecodeError>

  // ---- Bytes of wider integers, little end first ----

  /** Byte `k` of a number, and the number some bytes stand for. */
  function Digit(v: nat, k: nat): u8
    decreases v + k
  {
    if k == 0 then v % 0x100 else Digit(v / 0x100, k - 1)
  }

  function LittleEndian(bytes: seq<u8>): nat {
    if bytes == [] then 0 else bytes[0] + 0x100 * LittleEndian(bytes[1..])
  }

  function Pow256(n: nat): nat { if n == 0 then 1 else 0x100 * Pow256(n - 1) }

  lemma Widths()
    ensures Pow256(1) == 0x100 && Pow256(2) == 0x1_0000 && Pow256(4) == 0x1_0000_0000
    ensures Pow256(8) == 0x1_0000_0000_0000_0000
  {
    assert Pow256(3) == 0x100_0000 && Pow256(5) == 0x100_0000_0000 && Pow256(6) == 0x1_0000_0000_0000;
  }

  lemma {:induction false} LittleEndianBound(bytes: seq<u8>)
    ensures LittleEndian(bytes) < Pow256(|bytes|)
  {
    if bytes != [] { LittleEndianBound(bytes[1..]); }
  }

  function Digits(v: nat, n: nat): (r: seq<u8>)
    ensures |r| == n
  {
    seq(n, k requires 0 <= k < n => Digit(v, k))
  }

  lemma {:induction false} DigitsRoundTrip(v: nat, n: nat)
    requires v < Pow256(n)
    ensures LittleEndian(Digits(v, n)) == v
  {
    if n > 0 {
      DigitsRoundTrip(v / 0x100, n - 1);
      assert Digits(v, n)[1..] == Digits(v / 0x100, n - 1);
    }
  }

  function B0(v: nat): u8 { Digit(v, 0) }

  function B1(v: nat): u8 { Digit(v, 1) }

  function B2(v: nat): u8 { Digit(v, 2) }

  function B3(v: nat): u8 { Digit(v, 3) }

  function B4(v: nat): u8 { Digit(v, 4) }

  function B5(v: nat): u8 { Digit(v, 5) }

  function B6(v: nat): u8 { Digit(v, 6) }

  function B7(v: nat): u8 { Digit(v, 7) }

  function Join16(a: u8, b: u8): u16 {
    Widths();
    LittleEndianBound([a, b]);
    LittleEndian([a, b])
  }

  function Join32(a: u8, b: u8, c: u8, d: u8): u32 {
    Widths();
    LittleEndianBound([a, b, c, d]);
    LittleEndian([a, b, c, d])
  }

  function Join64(a: u8, b: u8, c: u8, d: u8, e: u8, f: u8, g: u8, h: u8): u64 {
    Widths();
    LittleEndianBound([a, b, c, d, e, f, g, h]);
    LittleEndian([a, b, c, d, e, f, g, h])
  }

  function U16At(bytes: seq<u8>, at: nat): u16
    requires at + 2 <= |bytes|
  {
    Join16(bytes[at], bytes[at + 1])
  }

  function U32At(bytes: seq<u8>, at: nat): u32
    requires at + 4 <= |bytes|
  {
    Join32(bytes[at], bytes[at + 1], bytes[at + 2], bytes[at + 3])
  }

  function U64At(bytes: seq<u8>, at: nat): u64
    requires at + 8 <= |bytes|
  {
    Join64(bytes[at], bytes[at + 1], bytes[at + 2], bytes[at + 3],
           bytes[at + 4], bytes[at + 5], bytes[at + 6], bytes[at + 7])
  }

  lemma Bytes16(v: u16)
    ensures Join16(B0(v), B1(v)) == v
  {
    Widths();
    DigitsRoundTrip(v, 2);
    assert Digits(v, 2) == [B0(v), B1(v)] by { hide Digit; }
  }

  lemma Bytes32(v: u32)
    ensures Join32(B0(v), B1(v), B2(v), B3(v)) == v
  {
    Widths();
    DigitsRoundTrip(v, 4);
    assert Digits(v, 4) == [B0(v), B1(v), B2(v), B3(v)] by { hide Digit; }
  }

  lemma Bytes64(v: u64)
    ensures Join64(B0(v), B1(v), B2(v), B3(v), B4(v), B5(v), B6(v), B7(v)) == v
  {
    Widths();
    DigitsRoundTrip(v, 8);
    assert Digits(v, 8) == [B0(v), B1(v), B2(v), B3(v), B4(v), B5(v), B6(v), B7(v)] by { hide Digit; }
  }

  function Zeros(n: nat): (r: seq<u8>)
    ensures |r| == n
  {
    seq(n, _ => 0)
  }

  // ---- Single fields ----

  /** `x as u8 | flag << 7`, where bit 7 of `x` may already be set. */
  function OrTopBit(x: u16, flag: bool): u8 {
    var low := x % 0x100;
    if flag && low < 0x80 then low + 0x80 else low
  }

  function BitSet(byte: u8, weight: nat): bool
    requires weight > 0
  {
    byte / weight % 2 == 1
  }

  function Flag(byte: u8): Option<bool> {
    if byte == 0 then Some(false) else if byte == 1 then Some(true) else None
  }

  function EffectKind(e: Effect): u8 {
    match e case Solid(_) => 0 case Blink(_, _, _, _) => 1 case Breathe(_, _, _, _) => 2
  }

  function EffectPeriod(e: Effect): u32 { if e.Solid? then 0 else e.periodMs }

  function EffectPhase(e: Effect): u32 { if e.Solid? then 0 else e.phaseMs }

  function EffectAuxiliary(e: Effect): u16 {
    match e case Solid(_) => 0 case Blink(_, _, _, duty) => duty case Breathe(_, _, _, step) => step
  }

  function MakeEffect(kind: u8, color: Rgb8, periodMs: u32, phaseMs: u32, auxiliary: u16): Option<Effect> {
    if kind == 0 then Some(Solid(color))
    else if kind == 1 && auxiliary <= 100 then Some(Blink(color, periodMs, phaseMs, auxiliary))
    else if kind == 2 then Some(Breathe(color, periodMs, phaseMs, auxiliary))
    else None
  }

  /** The on/off switch, with the two-value mode in the top bit. */
  function BackgroundByte(b: Background): u8 {
    BoolByte(b.enabled) + (if b.mode.BreatheBackground? then 128 else 0)
  }

  function MakeBackground(byte: u8, hue: u8, saturation: u8, value: u8, speed: u8): Background {
    Background(byte % 128 != 0, hue, saturation, value, speed,
               if byte < 128 then SolidBackground else BreatheBackground)
  }

  function PolicyByte(p: LayerPolicy): u8 { if p.EffectiveOnly? then 0 else 1 }

  function OutputModeByte(m: OutputMode): u8 {
    match m case AlwaysOn => 0 case AlwaysOff => 1 case PoweredOnly => 2
  }

  function MakeOutputMode(byte: u8): Option<OutputMode> {
    if byte == 0 then Some(AlwaysOn)
    else if byte == 1 then Some(AlwaysOff)
    else if byte == 2 then Some(PoweredOnly)
    else None
  }

  function IndicatorByte(i: Indicators): u8 {
    BoolByte(i.numLock) + 2 * BoolByte(i.capsLock) + 4 * BoolByte(i.scrollLock)
    + 8 * BoolByte(i.compose) + 16 * BoolByte(i.kana)
  }

  function MakeIndicators(byte: u8): Indicators {
    Indicators(BitSet(byte, 1), BitSet(byte, 2), BitSet(byte, 4), BitSet(byte, 8), BitSet(byte, 16))
  }

  function BatteryStateByte(s: BatteryStatus): u8 {
    match s
    case Unavailable => 0
    case Available(Charging, _) => 1
    case Available(Discharging, _) => 2
    case Available(Unknown, _) => 3
  }

  function BatteryLevelByte(s: BatteryStatus): u8 {
    match s case Unavailable => 255 case Available(_, level) => level.UnwrapOr(255)
  }

  function MakeBattery(state: u8, levelByte: u8): Option<BatteryStatus> {
    if levelByte != 255 && levelByte > 100 then None
    else
      var level := if levelByte == 255 then None else Some(levelByte);
      if state == 0 && level == None then Some(Unavailable)
      else if state == 1 then Some(Available(Charging, level))
      else if state == 2 then Some(Available(Discharging, level))
      else if state == 3 then Some(Available(Unknown, level))
      else None
  }

  function ChargeByte(c: Charge): u8 {
    match c case AnyCharge => 0 case ChargingOnly => 1 case DischargingOnly => 2 case UnknownOnly => 3
  }

  function MakeCharge(byte: u8): Charge
    requires byte < 4
  {
    if byte == 0 then AnyCharge
    else if byte == 1 then ChargingOnly
    else if byte == 2 then DischargingOnly
    else UnknownOnly
  }

  /** Layer gate in the low seven bits, high bit of the effect kind on top. */
  function LayerGateByte(layer: Option<LayerCondition>, e: Effect): u8 {
    (match layer case None => 63 case Some(gate) => gate.layer % 64 + 64 * BoolByte(gate.active))
    + (if e.Breathe? then 128 else 0)
  }

  function MakeLayerGate(byte: u8): Option<LayerCondition> {
    if byte % 64 == 63 then None else Some(LayerCondition(byte % 64, BitSet(byte, 64)))
  }

  function BatteryNodeByte(gate: Option<BatteryCondition>): u8 {
    match gate case None => 255 case Some(g) => g.node % 64 + 64 * ChargeByte(g.charge)
  }

  function MinLevelByte(gate: Option<BatteryCondition>): u8 {
    match gate case None => 255 case Some(g) => g.minLevel.UnwrapOr(255)
  }

  function MaxLevelByte(gate: Option<BatteryCondition>): u8 {
    match gate case None => 255 case Some(g) => g.maxLevel.UnwrapOr(255)
  }

  function MakeLevel(byte: u8): Option<u8> { if byte == 255 then None else Some(byte) }

  function MakeBatteryGate(node: u8, minLevel: u8, maxLevel: u8): Option<BatteryCondition> {
    if node == 255 then None
    else Some(BatteryCondition(node % 64, MakeLevel(minLevel), MakeLevel(maxLevel), MakeCharge(node / 64)))
  }

  function OutputModeGateByte(gate: Option<OutputMode>): u8 {
    match gate case None => 255 case Some(m) => OutputModeByte(m)
  }

  function TransportByte(t: Transport): u8 { match t case Usb => 0 case Ble => 1 case NoneActive => 2 }

  function BleStateByte(s: BleState): u8 { match s case Advertising => 0 case Connected => 1 case Inactive => 2 }

  /** transport: bits 7 and 0-1, BLE state: bits 6 and 2-3, effects: bits 5 and 4. */
  function ConnectionGatesByte(c: ConnectionCondition, effects: Option<EffectsCondition>): u8 {
    (match c.transport case None => 0 case Some(t) => 0x80 + TransportByte(t))
    + (match c.bleState case None => 0 case Some(s) => 0x40 + 4 * BleStateByte(s))
    + (match effects case None => 0 case Some(e) => 0x20 + 16 * BoolByte(e.enabled))
  }

  function ProfileByte(profile: Option<u8>): u8 {
    match profile case None => 0 case Some(p) => 0x80 + p % 0x80
  }

  function BondedByte(bonded: Option<BondedSlotCondition>): u8 {
    match bonded case None => 0 case Some(b) => 0x80 + 64 * BoolByte(b.bonded) + b.slot % 64
  }

  function UsbByte(usb: Option<bool>): u8 {
    match usb case None => 255 case Some(connected) => BoolByte(connected)
  }

  /** `None` on a value no sender produces; `Some(None)` when the gate is absent. */
  function MakeTransport(gates: u8): Option<Option<Transport>> {
    if !BitSet(gates, 128) then Some(None)
    else match gates % 4
      case 0 => Some(Some(Usb))
      case 1 => Some(Some(Ble))
      case 2 => Some(Some(NoneActive))
      case _ => None
  }

  function MakeBleState(gates: u8): Option<Option<BleState>> {
    if !BitSet(gates, 64) then Some(None)
    else match gates / 4 % 4
      case 0 => Some(Some(Advertising))
      case 1 => Some(Some(Connected))
      case 2 => Some(Some(Inactive))
      case _ => None
  }

  function MakeProfile(byte: u8): Option<u8> { if BitSet(byte, 128) then Some(byte % 128) else None }

  function MakeBonded(byte: u8): Option<BondedSlotCondition> {
    if BitSet(byte, 128) then Some(BondedSlotCondition(byte % 64, BitSet(byte, 64))) else None
  }

  function MakeUsb(byte: u8): Option<Option<bool>> {
    if byte == 0 then Some(Some(false))
    else if byte == 1 then Some(Some(true))
    else if byte == 255 then Some(None)
    else None
  }

  function MakeEffectsGate(gates: u8): Option<EffectsCondition> {
    if BitSet(gates, 32) then Some(EffectsCondition(BitSet(gates, 16))) else None
  }

  function ParamLength(p: Option<ExtensionParams>): u8 { if p.None? then 0 else |p.value.values| }

  function ParamEffect(p: Option<ExtensionParams>): u8 { if p.None? then 0 else p.value.effect }

  /** The values, padded with zeros to the fixed block. */
  function ParamBlock(p: Option<ExtensionParams>): (r: seq<u8>)
    ensures |r| == EXTENSION_PARAM_CHUNK
  {
    if p.None? then Zeros(EXTENSION_PARAM_CHUNK)
    else p.value.values + Zeros(EXTENSION_PARAM_CHUNK - |p.value.values|)
  }

  function MakeParams(length: u8, effect: u8, block: seq<u8>): Option<ExtensionParams>
    requires length <= EXTENSION_PARAM_CHUNK == |block|
  {
    if length == 0 then None else Some(ExtensionParams(effect, block[..length]))
  }

  function TtlValue(ttl: Option<NonZeroU32>): u32 { match ttl case None => 0 case Some(v) => v }

  function MakeTtl(v: u32): Option<NonZeroU32> { if v == 0 then None else Some(v) }

  predicate WireSlot(slot: int) { LEDS_PER_HALF <= slot < TOTAL_LEDS }

  // ---- Encoding ----

  function ContextBytes(tag: u8, g: u8, r: u32, c: ReplicatedContext, b: BatteryPair): (bytes: seq<u8>)
    ensures |bytes| == 24 && bytes[0] == VERSION && bytes[1] == tag
  {
    [VERSION, tag, g, B0(r), B1(r), B2(r), B3(r), 0, 0, 0, 0, 0, 0, 0, 0, 0, 0,
     IndicatorByte(c.indicators),
     BatteryStateByte(b.left), BatteryLevelByte(b.left),
     BatteryStateByte(b.right), BatteryLevelByte(b.right),
     BoolByte(c.powered), c.bondedSlots]
  }

  function BeginBytes(m: Message): (r: seq<u8>)
    requires m.Begin?
    ensures |r| == 26 && r[0] == VERSION && r[1] == TAG_BEGIN
  {
    var Begin(g, r, cells, scenes, policy, t, mutable, mode) := m;
    [VERSION, TAG_BEGIN, g, B0(r), B1(r), B2(r), B3(r), cells,
     B0(t), B1(t), B2(t), B3(t), B4(t), B5(t), B6(t), B7(t),
     BoolByte(mutable.outputEnabled), mutable.outputBrightness,
     BackgroundByte(mutable.background),
     mutable.background.hue, mutable.background.saturation, mutable.background.value,
     mutable.background.speed, scenes, PolicyByte(policy), OutputModeByte(mode)]
  }

  function WakeLayersBytes(m: Message): (r: seq<u8>)
    requires m.WakeLayers?
    ensures |r| == 15 && r[0] == VERSION && r[1] == TAG_WAKE_LAYERS
  {
    var WakeLayers(g, r, w) := m;
    [VERSION, TAG_WAKE_LAYERS, g, B0(r), B1(r), B2(r), B3(r),
     B0(w), B1(w), B2(w), B3(w), B4(w), B5(w), B6(w), B7(w)]
  }

  /** The state's four bytes, zero when it is absent. */
  function ExtensionField(e: Option<ExtensionState>, field: ExtensionState -> u8): u8 {
    match e case None => 0 case Some(x) => field(x)
  }

  function ExtensionHead(m: Message): (r: seq<u8>)
    requires m.Extension?
    ensures |r| == 14 && r[0] == VERSION && r[1] == TAG_EXTENSION
  {
    var Extension(g, r, e, p) := m;
    [VERSION, TAG_EXTENSION, g, B0(r), B1(r), B2(r), B3(r), BoolByte(e.Some?),
     ExtensionField(e, (x: ExtensionState) => x.effect), ExtensionField(e, (x: ExtensionState) => x.palette),
     ExtensionField(e, (x: ExtensionState) => x.value), ExtensionField(e, (x: ExtensionState) => x.speed),
     ParamLength(p), ParamEffect(p)]
  }

  function ExtensionOverlayHead(m: Message): (r: seq<u8>)
    requires m.ExtensionOverlay?
    ensures |r| == 11 && r[0] == VERSION && r[1] == TAG_EXTENSION_OVERLAY
  {
    var ExtensionOverlay(g, r, overlay, p) := m;
    [VERSION, TAG_EXTENSION_OVERLAY, g, B0(r), B1(r), B2(r), B3(r), BoolByte(overlay.Some?), overlay.UnwrapOr(0),
     ParamLength(p), ParamEffect(p)]
  }

  function CellBytes(m: Message): (r: seq<u8>)
    requires m.Cell?
    ensures |r| == 26 && r[0] == VERSION && r[1] == TAG_CELL
  {
    var Cell(g, r, c) := m;
    var (period, phase, ttl) := (EffectPeriod(c.effect), EffectPhase(c.effect), TtlValue(c.ttlMs));
    [VERSION, TAG_CELL, g, B0(r), B1(r), B2(r), B3(r), B0(c.slot), EffectKind(c.effect),
     c.effect.color.r, c.effect.color.g, c.effect.color.b,
     B0(period), B1(period), B2(period), B3(period), B0(phase), B1(phase), B2(phase), B3(phase),
     B0(EffectAuxiliary(c.effect)), B1(EffectAuxiliary(c.effect)),
     B0(ttl), B1(ttl), B2(ttl), B3(ttl)]
  }

  function TableCellBytes(m: Message): (r: seq<u8>)
    requires m.TableCell?
    ensures |r| == 23 && r[0] == VERSION && r[1] == TAG_SCENE_CELL
  {
    var TableCell(g, r, c) := m;
    var (period, phase) := (EffectPeriod(c.effect), EffectPhase(c.effect));
    [VERSION, TAG_SCENE_CELL, g, B0(r), B1(r), B2(r), B3(r), c.layer, B0(c.slot), EffectKind(c.effect),
     c.effect.color.r, c.effect.color.g, c.effect.color.b,
     B0(period), B1(period), B2(period), B3(period), B0(phase), B1(phase), B2(phase), B3(phase),
     B0(EffectAuxiliary(c.effect)), B1(EffectAuxiliary(c.effect))]
  }

  function ConditionalBeginBytes(m: Message): (r: seq<u8>)
    requires m.ConditionalBegin?
    ensures |r| == 8 && r[0] == VERSION && r[1] == TAG_CONDITIONAL_SCENE_BEGIN
  {
    var ConditionalBegin(g, r, count) := m;
    [VERSION, TAG_CONDITIONAL_SCENE_BEGIN, g, B0(r), B1(r), B2(r), B3(r), count]
  }

  function ConditionalBytes(m: Message): (r: seq<u8>)
    requires m.Conditional?
    ensures |r| == 26 && r[0] == VERSION && r[1] == TAG_CONDITIONAL_SCENE_CELL
  {
    var Conditional(g, r, c) := m;
    var (period, phase, gates) := (EffectPeriod(c.effect), EffectPhase(c.effect), c.conditions);
    [VERSION, TAG_CONDITIONAL_SCENE_CELL, g, B0(r), B1(r), B2(r), B3(r),
     OrTopBit(c.slot, c.effect.Blink?), LayerGateByte(gates.layer, c.effect),
     BatteryNodeByte(gates.battery), MinLevelByte(gates.battery), MaxLevelByte(gates.battery),
     c.effect.color.r, c.effect.color.g, c.effect.color.b,
     B0(period), B1(period), B2(period), B3(period), B0(phase), B1(phase), B2(phase), B3(phase),
     B0(EffectAuxiliary(c.effect)), B1(EffectAuxiliary(c.effect)), OutputModeGateByte(gates.outputMode)]
  }

  function ConditionalExtBytes(m: Message): (r: seq<u8>)
    requires m.ConditionalExt?
    ensures |r| == 11 && r[0] == VERSION && r[1] == TAG_CONDITIONAL_SCENE_EXT
  {
    var ConditionalExt(g, r, connection, effects) := m;
    var c := connection.UnwrapOr(NoConnectionFields);
    [VERSION, TAG_CONDITIONAL_SCENE_EXT, g, B0(r), B1(r), B2(r), B3(r),
     ConnectionGatesByte(c, effects), ProfileByte(c.profile), BondedByte(c.bonded), UsbByte(c.usbConnected)]
  }

  function CommitBytes(m: Message): (r: seq<u8>)
    requires m.Commit?
    ensures |r| == 9 && r[0] == VERSION && r[1] == TAG_COMMIT
  {
    var Commit(g, r, cells, scenes) := m;
    [VERSION, TAG_COMMIT, g, B0(r), B1(r), B2(r), B3(r), cells, scenes]
  }

  function AckBytes(m: Message): (r: seq<u8>)
    requires m.Ack?
    ensures |r| == 7 && r[0] == VERSION && r[1] == TAG_ACK
  {
    var Ack(g, r) := m;
    [VERSION, TAG_ACK, g, B0(r), B1(r), B2(r), B3(r)]
  }

  function EffectHitBytes(m: Message): (r: seq<u8>)
    requires m.EffectHit?
    ensures |r| == 3 && r[0] == VERSION && r[1] == TAG_EFFECT_HIT
  {
    var EffectHit(slot) := m;
    [VERSION, TAG_EFFECT_HIT, B0(slot)]
  }

  function AttestationBytes(m: Message): (r: seq<u8>)
    requires m.Attestation?
    ensures |r| == 24 && r[0] == VERSION && r[1] == TAG_ATTESTATION
  {
    var Attestation(g, d) := m;
    [VERSION, TAG_ATTESTATION, g, d.schema,
     B0(d.revision), B1(d.revision), B2(d.revision), B3(d.revision),
     B0(d.settings), B1(d.settings), B2(d.settings), B3(d.settings),
     B0(d.overlay), B1(d.overlay), B2(d.overlay), B3(d.overlay),
     B0(d.scenes), B1(d.scenes), B2(d.scenes), B3(d.scenes),
     B0(d.conditionalScenes), B1(d.conditionalScenes), B2(d.conditionalScenes), B3(d.conditionalScenes)]
  }

  function ReplicaProbeBytes(m: Message): (r: seq<u8>)
    requires m.ReplicaProbe?
    ensures |r| == 3 && r[0] == VERSION && r[1] == TAG_REPLICA_PROBE
  {
    var ReplicaProbe(g) := m;
    [VERSION, TAG_REPLICA_PROBE, g]
  }

  function StatusRequestBytes(m: Message): (r: seq<u8>)
    requires m.StatusRequest?
    ensures |r| == 3 && r[0] == VERSION && r[1] == TAG_STATUS_REQUEST
  {
    var StatusRequest(id) := m;
    [VERSION, TAG_STATUS_REQUEST, id]
  }

  function StatusFlags(powered: bool, wake: bool, output: bool): u8 {
    BoolByte(powered) + 2 * BoolByte(wake) + 4 * BoolByte(output)
  }

  function StatusReportBytes(m: Message): (r: seq<u8>)
    requires m.StatusReport?
    ensures |r| == 23 && r[0] == VERSION && r[1] == TAG_STATUS_REPORT
  {
    var StatusReport(id, applied, engine, layers, powered, wake, output) := m;
    var a := applied.UnwrapOr(0);
    var bits := layers.active;
    [VERSION, TAG_STATUS_REPORT, id, BoolByte(applied.Some?), B0(a), B1(a), B2(a), B3(a),
     B0(engine), B1(engine), B2(engine), B3(engine), layers.effective, layers.default,
     B0(bits), B1(bits), B2(bits), B3(bits),
     B4(bits), B5(bits), B6(bits), B7(bits),
     StatusFlags(powered, wake, output)]
  }

  function FrameChunkRequestBytes(m: Message): (r: seq<u8>)
    requires m.FrameChunkRequest?
    ensures |r| == 5 && r[0] == VERSION && r[1] == TAG_FRAME_CHUNK_REQUEST
  {
    var FrameChunkRequest(id, offset) := m;
    [VERSION, TAG_FRAME_CHUNK_REQUEST, id, B0(offset), B1(offset)]
  }

  function FrameChunkBytes(m: Message): (r: seq<u8>)
    requires m.FrameChunk?
    ensures |r| == 25 && r[0] == VERSION && r[1] == TAG_FRAME_CHUNK
  {
    var FrameChunk(id, revision, total, start, len, cells) := m;
    var r := revision.UnwrapOr(0);
    [VERSION, TAG_FRAME_CHUNK, id, BoolByte(revision.Some?), B0(r), B1(r), B2(r), B3(r),
     B0(total), B1(total), B0(start), B1(start), len,
     cells[0].r, cells[0].g, cells[0].b, cells[1].r, cells[1].g, cells[1].b,
     cells[2].r, cells[2].g, cells[2].b, cells[3].r, cells[3].g, cells[3].b]
  }

  function TransportStatusBytes(m: Message): (r: seq<u8>)
    requires m.TransportStatus?
    ensures |r| == 4 && r[0] == VERSION && r[1] == TAG_TRANSPORT_STATUS
  {
    var TransportStatus(auto, wired) := m;
    [VERSION, TAG_TRANSPORT_STATUS, BoolByte(auto), BoolByte(wired)]
  }

  function DebugTraceBytes(m: Message): (r: seq<u8>)
    requires m.DebugTrace?
    ensures |r| == 26 && r[0] == VERSION && r[1] == TAG_DEBUG_TRACE
  {
    var DebugTrace(stage, boots, rr, cause) := m;
    [VERSION, TAG_DEBUG_TRACE, B0(stage), B1(stage), B2(stage), B3(stage),
     B0(boots), B1(boots), B2(boots), B3(boots),
     B0(rr.0), B1(rr.0), B2(rr.0), B3(rr.0), B0(rr.1), B1(rr.1), B2(rr.1), B3(rr.1),
     B0(cause.0), B1(cause.0), B2(cause.0), B3(cause.0), B0(cause.1), B1(cause.1), B2(cause.1), B3(cause.1)]
  }

  function DebugPanicLocBytes(m: Message): (r: seq<u8>)
    requires m.DebugPanicLoc?
    ensures |r| == 26 && r[0] == VERSION && r[1] == TAG_DEBUG_PANIC_LOC
  {
    var DebugPanicLoc(len, text) := m;
    [VERSION, TAG_DEBUG_PANIC_LOC, Min(len, 23)] + text
  }

  /** The packet of a message: never longer than the link's message limit. */
  function Encode(m: Message): (r: seq<u8>)
    ensures 2 <= |r| <= MESSAGE_MAX && r[0] == VERSION
  {
    match m
    case Begin(_, _, _, _, _, _, _, _) => BeginBytes(m)
    case WakeLayers(_, _, _) => WakeLayersBytes(m)
    case Context(g, r, c, b) => ContextBytes(TAG_CONTEXT, g, r, c, b)
    case ContextUpdate(g, r, c, b) => ContextBytes(TAG_CONTEXT_UPDATE, g, r, c, b)
    case Extension(_, _, _, p) => ExtensionHead(m) + ParamBlock(p)
    case ExtensionOverlay(_, _, _, p) => ExtensionOverlayHead(m) + ParamBlock(p)
    case Cell(_, _, _) => CellBytes(m)
    case TableCell(_, _, _) => TableCellBytes(m)
    case ConditionalBegin(_, _, _) => ConditionalBeginBytes(m)
    case Conditional(_, _, _) => ConditionalBytes(m)
    case ConditionalExt(_, _, _, _) => ConditionalExtBytes(m)
    case Commit(_, _, _, _) => CommitBytes(m)
    case Ack(_, _) => AckBytes(m)
    case EffectHit(_) => EffectHitBytes(m)
    case Attestation(_, _) => AttestationBytes(m)
    case ReplicaProbe(_) => ReplicaProbeBytes(m)
    case StatusRequest(_) => StatusRequestBytes(m)
    case StatusReport(_, _, _, _, _, _, _) => StatusReportBytes(m)
    case FrameChunkRequest(_, _) => FrameChunkRequestBytes(m)
    case FrameChunk(_, _, _, _, _, _) => FrameChunkBytes(m)
    case TransportStatus(_, _) => TransportStatusBytes(m)
    case DebugTrace(_, _, _, _) => DebugTraceBytes(m)
    case DebugPanicLoc(_, _) => DebugPanicLocBytes(m)
  }

  // ---- Decoding ----

  function DecodeBegin(b: seq<u8>): Decoded
    requires |b| == 26
  {
    var policy := if b[24] == 0 then Some(EffectiveOnly) else if b[24] == 1 then Some(ActiveStack) else None;
    var enabled := Flag(b[16]);
    var mode := MakeOutputMode(b[25]);
    if policy.None? || enabled.None? || mode.None? then Err(BadValue)
    else
      Ok(Begin(b[2], U32At(b, 3), b[7], b[23], policy.value, U64At(b, 8),
        Mutable(enabled.value, b[17],
          MakeBackground(b[18], b[19], b[20], b[21], b[22])),
        mode.value))
  }

  function DecodeContext(b: seq<u8>): Option<(ReplicatedContext, BatteryPair)>
    requires |b| == 24
  {
    var powered := Flag(b[22]);
    var left, right := MakeBattery(b[18], b[19]), MakeBattery(b[20], b[21]);
    if powered.None? || left.None? || right.None? then None
    else Some((ReplicatedContext(MakeIndicators(b[17]), powered.value, b[23]), BatteryPair(left.value, right.value)))
  }

  function DecodeExtension(b: seq<u8>): Decoded
    requires |b| == 14 + EXTENSION_PARAM_CHUNK
  {
    if b[12] > EXTENSION_PARAM_CHUNK || Flag(b[7]).None? then Err(BadValue)
    else
      Ok(Extension(b[2], U32At(b, 3),
        if Flag(b[7]).value then Some(ExtensionState(b[8], b[9], b[10], b[11])) else None,
        MakeParams(b[12], b[13], b[14..])))
  }

  function DecodeExtensionOverlay(b: seq<u8>): Decoded
    requires |b| == 11 + EXTENSION_PARAM_CHUNK
  {
    if b[9] > EXTENSION_PARAM_CHUNK || Flag(b[7]).None? then Err(BadValue)
    else
      Ok(ExtensionOverlay(b[2], U32At(b, 3),
        if Flag(b[7]).value then Some(b[8]) else None,
        MakeParams(b[9], b[10], b[11..])))
  }

  function DecodeCell(b: seq<u8>): Decoded
    requires |b| == 26
  {
    var effect := MakeEffect(b[8], Rgb8(b[9], b[10], b[11]), U32At(b, 12), U32At(b, 16), U16At(b, 20));
    if !WireSlot(b[7]) || effect.None? then Err(BadValue)
    else Ok(Cell(b[2], U32At(b, 3), OverlayCell(b[7], effect.value, MakeTtl(U32At(b, 22)))))
  }

  function DecodeTableCell(b: seq<u8>): Decoded
    requires |b| == 23
  {
    var effect := MakeEffect(b[9], Rgb8(b[10], b[11], b[12]), U32At(b, 13), U32At(b, 17), U16At(b, 21));
    if !WireSlot(b[8]) || effect.None? then Err(BadValue)
    else Ok(TableCell(b[2], U32At(b, 3), SceneCell(b[7], b[8], effect.value)))
  }

  /** The slot under the low bit of the effect kind. */
  function PackedSlot(slotByte: u8): u8 { slotByte % 128 }

  /** The effect kind, whose two bits sit above the slot and the layer gate. */
  function PackedKind(slotByte: u8, layerByte: u8): u8 { slotByte / 128 + 2 * (layerByte / 128) }

  function DecodeConditional(b: seq<u8>): Decoded
    requires |b| == 26
  {
    var slot := PackedSlot(b[7]);
    var kind := PackedKind(b[7], b[8]);
    var effect := MakeEffect(kind, Rgb8(b[12], b[13], b[14]), U32At(b, 15), U32At(b, 19), U16At(b, 23));
    var mode := MakeOutputMode(b[25]);
    if !WireSlot(slot) || effect.None? || (mode.None? && b[25] != 255) then Err(BadValue)
    else
      Ok(Conditional(b[2], U32At(b, 3),
        ConditionalCell(
          ConditionSet(MakeLayerGate(b[8]), MakeBatteryGate(b[9], b[10], b[11]), None, mode, None,
                       None, None, None, None),
          slot, effect.value)))
  }

  function DecodeConditionalExt(b: seq<u8>): Decoded
    requires |b| == 11
  {
    var transport, bleState, usb := MakeTransport(b[7]), MakeBleState(b[7]), MakeUsb(b[10]);
    if transport.None? || bleState.None? || usb.None? then Err(BadValue)
    else
      var c := ConnectionCondition(
        transport.value, MakeProfile(b[8]), bleState.value, MakeBonded(b[9]), usb.value);
      Ok(ConditionalExt(b[2], U32At(b, 3), if c.NamesAField() then Some(c) else None, MakeEffectsGate(b[7])))
  }

  function DecodeStatusReport(b: seq<u8>): Decoded
    requires |b| == 23
  {
    if Flag(b[3]).None? || b[22] >= 8 then Err(BadValue)
    else
      Ok(StatusReport(b[2], if Flag(b[3]).value then Some(U32At(b, 4)) else None, U32At(b, 8),
        LayerState(b[12], b[13], U64At(b, 14)), BitSet(b[22], 1), BitSet(b[22], 2), BitSet(b[22], 4)))
  }

  function DecodeFrameChunk(b: seq<u8>): Decoded
    requires |b| == 25
  {
    if Flag(b[3]).None? || b[12] > FRAME_CHUNK_CELLS then Err(BadValue)
    else
      Ok(FrameChunk(b[2], if Flag(b[3]).value then Some(U32At(b, 4)) else None, U16At(b, 8), U16At(b, 10), b[12],
        [Rgb8(b[13], b[14], b[15]), Rgb8(b[16], b[17], b[18]), Rgb8(b[19], b[20], b[21]), Rgb8(b[22], b[23], b[24])]))
  }

  function DecodeWakeLayers(b: seq<u8>): Decoded
    requires |b| == 15
  {
    Ok(WakeLayers(b[2], U32At(b, 3), U64At(b, 7)))
  }

  function DecodeReplicated(b: seq<u8>): Decoded
    requires |b| == 24
  {
    match DecodeContext(b)
    case None => Err(BadValue)
    case Some((c, p)) =>
      if b[1] == TAG_CONTEXT then Ok(Context(b[2], U32At(b, 3), c, p))
      else Ok(ContextUpdate(b[2], U32At(b, 3), c, p))
  }

  function DecodeConditionalBegin(b: seq<u8>): Decoded
    requires |b| == 8
  {
    Ok(ConditionalBegin(b[2], U32At(b, 3), b[7]))
  }

  function DecodeCommit(b: seq<u8>): Decoded
    requires |b| == 9
  {
    Ok(Commit(b[2], U32At(b, 3), b[7], b[8]))
  }

  function DecodeAck(b: seq<u8>): Decoded
    requires |b| == 7
  {
    Ok(Ack(b[2], U32At(b, 3)))
  }

  function DecodeAttestation(b: seq<u8>): Decoded
    requires |b| == 24
  {
    Ok(Attestation(b[2], Digests(b[3], U32At(b, 4), U32At(b, 8), U32At(b, 12), U32At(b, 16), U32At(b, 20))))
  }

  function DecodeFrameChunkRequest(b: seq<u8>): Decoded
    requires |b| == 5
  {
    Ok(FrameChunkRequest(b[2], U16At(b, 3)))
  }

  function DecodeTransportStatus(b: seq<u8>): Decoded
    requires |b| == 4
  {
    if Flag(b[2]).None? || Flag(b[3]).None? then Err(BadValue)
    else Ok(TransportStatus(Flag(b[2]).value, Flag(b[3]).value))
  }

  function DecodeDebugTrace(b: seq<u8>): Decoded
    requires |b| == 26
  {
    Ok(DebugTrace(U32At(b, 2), U32At(b, 6), (U32At(b, 10), U32At(b, 14)), (U32At(b, 18), U32At(b, 22))))
  }

  function DecodeDebugPanicLoc(b: seq<u8>): Decoded
    requires |b| == 26
  {
    Ok(DebugPanicLoc(Min(b[2], 23), b[3..26]))
  }

  /** `TAG_WAKE_LAYERS` is missing from the tags whose wrong length is a length
      error, so a short wake-layers packet reports an unknown tag. */
  predicate KnownTag(tag: u8) {
    1 <= tag <= 23 && tag != TAG_WAKE_LAYERS
  }

  function Decode(b: seq<u8>): Decoded {
    if |b| == 0 || b[0] != VERSION then Err(BadVersion)
    else if |b| == 1 then Err(BadLength)
    else
      var tag := b[1];
      if tag == TAG_BEGIN && |b| == 26 then DecodeBegin(b)
      else if tag == TAG_WAKE_LAYERS && |b| == 15 then DecodeWakeLayers(b)
      else if (tag == TAG_CONTEXT || tag == TAG_CONTEXT_UPDATE) && |b| == 24 then DecodeReplicated(b)
      else if tag == TAG_EXTENSION && |b| == 14 + EXTENSION_PARAM_CHUNK then DecodeExtension(b)
      else if tag == TAG_EXTENSION_OVERLAY && |b| == 11 + EXTENSION_PARAM_CHUNK then DecodeExtensionOverlay(b)
      else if tag == TAG_CELL && |b| == 26 then DecodeCell(b)
      else if tag == TAG_SCENE_CELL && |b| == 23 then DecodeTableCell(b)
      else if tag == TAG_CONDITIONAL_SCENE_BEGIN && |b| == 8 then DecodeConditionalBegin(b)
      else if tag == TAG_CONDITIONAL_SCENE_CELL && |b| == 26 then DecodeConditional(b)
      else if tag == TAG_CONDITIONAL_SCENE_EXT && |b| == 11 then DecodeConditionalExt(b)
      else if tag == TAG_COMMIT && |b| == 9 then DecodeCommit(b)
      else if tag == TAG_ACK && |b| == 7 then DecodeAck(b)
      else if tag == TAG_EFFECT_HIT && |b| == 3 && b[2] < TOTAL_LEDS then Ok(EffectHit(b[2]))
      else if tag == TAG_ATTESTATION && |b| == 24 then DecodeAttestation(b)
      else if tag == TAG_REPLICA_PROBE && |b| == 3 then Ok(ReplicaProbe(b[2]))
      else if tag == TAG_STATUS_REQUEST && |b| == 3 then Ok(StatusRequest(b[2]))
      else if tag == TAG_STATUS_REPORT && |b| == 23 then DecodeStatusReport(b)
      else if tag == TAG_FRAME_CHUNK_REQUEST && |b| == 5 then DecodeFrameChunkRequest(b)
      else if tag == TAG_FRAME_CHUNK && |b| == 25 then DecodeFrameChunk(b)
      else if tag == TAG_TRANSPORT_STATUS && |b| == 4 then DecodeTransportStatus(b)
      else if tag == TAG_DEBUG_TRACE && |b| == 26 then DecodeDebugTrace(b)
      else if tag == TAG_DEBUG_PANIC_LOC && |b| == 26 then DecodeDebugPanicLoc(b)
      else if KnownTag(tag) then Err(BadLength)
      else Err(BadTag)
  }
}

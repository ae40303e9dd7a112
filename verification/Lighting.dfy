/** Build-time sizes of a board. The two boards differ, so nothing below picks
    values: `BOARD` is any value that satisfies the bounds. */
module Boards {
  datatype BoardSizes = BoardSizes(
    ledsPerHalf: nat,
    overlayCapacity: nat,
    sceneCapacity: nat,
    layerCapacity: nat,
    paramChunk: nat,
    frameChunkSize: nat)
  {
    predicate Sound() {
      && 0 < ledsPerHalf <= 63
      && ledsPerHalf <= overlayCapacity
      && sceneCapacity <= 255
      && layerCapacity <= 255
      && 0 < paramChunk <= 12
      && 0 < frameChunkSize <= 255
    }
  }

  type Board = b: BoardSizes | b.Sound() witness BoardSizes(40, 64, 100, 64, 12, 16)

  const BOARD: Board
  const LEDS_PER_HALF: nat := BOARD.ledsPerHalf
  const TOTAL_LEDS: nat := LEDS_PER_HALF * 2
  const OVERLAY_CAPACITY: nat := BOARD.overlayCapacity
  const SCENE_CAPACITY: nat := BOARD.sceneCapacity
  const LAYER_CAPACITY: nat := BOARD.layerCapacity
  const EXTENSION_PARAM_CHUNK: nat := BOARD.paramChunk
  const FRAME_CHUNK_SIZE: nat := BOARD.frameChunkSize
}

/** The declarative lighting state both halves share. */
module Lighting {
  import opened Prelude
  import opened Boards

  datatype Rgb8 = Rgb8(r: u8, g: u8, b: u8)

  datatype Effect =
    | Solid(color: Rgb8)
    | Blink(color: Rgb8, periodMs: u32, phaseMs: u32, duty: u8)
    | Breathe(color: Rgb8, periodMs: u32, phaseMs: u32, stepMs: u16)

  datatype OverlayCell = OverlayCell(slot: u16, effect: Effect, ttlMs: Option<NonZeroU32>)

  datatype SceneCell = SceneCell(layer: u8, slot: u16, effect: Effect)

  datatype LayerPolicy = EffectiveOnly | ActiveStack

  /** RMK's table, as a list of cells that `Unique` keeps distinct by key. */
  datatype SceneTable = SceneTable(policy: LayerPolicy, cells: seq<SceneCell>)

  datatype LayerCondition = LayerCondition(layer: u8, active: bool)

  datatype Charge = AnyCharge | ChargingOnly | DischargingOnly | UnknownOnly

  datatype BatteryCondition =
    BatteryCondition(node: u8, minLevel: Option<u8>, maxLevel: Option<u8>, charge: Charge)

  datatype Transport = Usb | Ble | NoneActive

  datatype BleState = Advertising | Connected | Inactive

  datatype BondedSlotCondition = BondedSlotCondition(slot: u8, bonded: bool)

  datatype ConnectionCondition = ConnectionCondition(
    transport: Option<Transport>,
    profile: Option<u8>,
    bleState: Option<BleState>,
    bonded: Option<BondedSlotCondition>,
    usbConnected: Option<bool>)
  {
    predicate NamesAField() {
      transport.Some? || profile.Some? || bleState.Some? || bonded.Some? || usbConnected.Some?
    }
  }

  const NoConnectionFields := ConnectionCondition(None, None, None, None, None)

  datatype EffectsCondition = EffectsCondition(enabled: bool)

  datatype OutputMode = AlwaysOn | AlwaysOff | PoweredOnly

  /** A gate whose contents no modelled code looks at. */
  datatype UncarriedGate = UncarriedGate(code: nat)

  datatype ConditionSet = ConditionSet(
    layer: Option<LayerCondition>,
    battery: Option<BatteryCondition>,
    connection: Option<ConnectionCondition>,
    outputMode: Option<OutputMode>,
    effects: Option<EffectsCondition>,
    layers: Option<UncarriedGate>,
    indicators: Option<UncarriedGate>,
    maintenance: Option<UncarriedGate>,
    splitTransport: Option<UncarriedGate>)

  datatype ConditionalCell = ConditionalCell(conditions: ConditionSet, slot: u16, effect: Effect)

  datatype BackgroundMode = SolidBackground | BreatheBackground

  datatype Background =
    Background(enabled: bool, hue: u8, saturation: u8, value: u8, speed: u8, mode: BackgroundMode)

  datatype Mutable = Mutable(outputEnabled: bool, outputBrightness: u8, background: Background)

  datatype Indicators =
    Indicators(numLock: bool, capsLock: bool, scrollLock: bool, compose: bool, kana: bool)

  datatype LayerState = LayerState(effective: u8, default: u8, active: u64)

  /** `connection` stands for the connection status and `elsewhere` for the
      maintenance and split-transport state; replication only copies them. */
  datatype LightingContext = LightingContext(
    layers: LayerState,
    indicators: Indicators,
    powered: bool,
    localPowered: bool,
    bondedSlots: u8,
    connection: nat,
    elsewhere: nat)

  /** RMK's `LightingContext::default()`, whose value nothing depends on. */
  const DEFAULT_CONTEXT: LightingContext

  datatype ReplicatedContext = ReplicatedContext(indicators: Indicators, powered: bool, bondedSlots: u8) {
    function ApplyTo(context: LightingContext): LightingContext {
      context.(indicators := indicators, powered := powered, bondedSlots := bondedSlots)
    }
  }

  function Replicated(context: LightingContext): ReplicatedContext {
    ReplicatedContext(context.indicators, context.powered, context.bondedSlots)
  }

  datatype ChargeState = Charging | Discharging | Unknown

  datatype BatteryStatus = Unavailable | Available(charge: ChargeState, level: Option<u8>)

  datatype BatteryPair = BatteryPair(left: BatteryStatus, right: BatteryStatus)

  datatype ExtensionState = ExtensionState(effect: u8, palette: u8, value: u8, speed: u8)

  datatype ExtensionLayers = ExtensionLayers(overlay: Option<u8>)

  type ParamValues = s: seq<u8> | |s| <= EXTENSION_PARAM_CHUNK

  /** The parameter block, seen through `values()`. */
  datatype ExtensionParams = ExtensionParams(effect: u8, values: ParamValues)

  datatype Snapshot = Snapshot(
    revision: u32,
    mutable: Mutable,
    outputMode: OutputMode,
    wakeLayers: u64,
    overlay: seq<OverlayCell>,
    scenes: SceneTable,
    conditional: seq<ConditionalCell>,
    context: LightingContext,
    sampleTimeMs: u64,
    extension: Option<ExtensionState>,
    extensionLayers: Option<ExtensionLayers>,
    extensionParams: Option<ExtensionParams>,
    extensionOverlayParams: Option<ExtensionParams>)

  datatype Digests =
    Digests(schema: u8, revision: u32, settings: u32, overlay: u32, scenes: u32, conditionalScenes: u32)

  // ---- The right half ----

  predicate OnRight(slot: u16) { slot >= LEDS_PER_HALF }

  predicate OverlayOnRight(c: OverlayCell) { OnRight(c.slot) }

  predicate ScenesOnRight(c: SceneCell) { OnRight(c.slot) }

  predicate ConditionalOnRight(c: ConditionalCell) { OnRight(c.slot) }

  function RightOverlay(cells: seq<OverlayCell>): seq<OverlayCell> {
    Filter(cells, OverlayOnRight)
  }

  function RightScenes(cells: seq<SceneCell>): seq<SceneCell> {
    Filter(cells, ScenesOnRight)
  }

  function RightConditional(cells: seq<ConditionalCell>): seq<ConditionalCell> {
    Filter(cells, ConditionalOnRight)
  }

  predicate UniqueOverlay(cells: seq<OverlayCell>) {
    forall i, j :: 0 <= i < j < |cells| ==> cells[i].slot != cells[j].slot
  }

  predicate UniqueScenes(cells: seq<SceneCell>) {
    forall i, j :: 0 <= i < j < |cells| ==> cells[i].layer != cells[j].layer || cells[i].slot != cells[j].slot
  }

  /** What the peripheral is meant to hold once a snapshot has crossed: every
      shared setting, the right-half cells only, and a context that starts
      from the default and takes over the replicated part. */
  function RightHalf(s: Snapshot): Snapshot {
    s.(overlay := RightOverlay(s.overlay),
       scenes := SceneTable(s.scenes.policy, RightScenes(s.scenes.cells)),
       conditional := RightConditional(s.conditional),
       context := Replicated(s.context).ApplyTo(DEFAULT_CONTEXT),
       extensionLayers := Some(ExtensionLayers(
         match s.extensionLayers { case None => None case Some(layers) => layers.overlay })))
  }
}

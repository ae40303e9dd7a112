/** FNV-1a-32 digests (draft-eastlake-fnv, section 2) of the durable right half:
    the byte streams that are hashed, the hashing itself, and what the streams
    depend on. */
module Digesting {
  import opened Prelude
  import opened Boards
  import opened Lighting
  import opened Codec

  const FNV_OFFSET: u32 := 0x811c_9dc5
  const FNV_PRIME: u32 := 0x0100_0193

  /** RMK's digest schema number, hashed first into every domain. */
  const DIGEST_SCHEMA: u8

  /** Exclusive or, bit by bit from the lowest. */
  function Xor(a: nat, b: nat): nat {
    if a == 0 && b == 0 then 0 else (a + b) % 2 + 2 * Xor(a / 2, b / 2)
  }

  function FnvStep(hash: u32, byte: u8): u32 { (Xor(hash, byte) * FNV_PRIME) % 0x1_0000_0000 }

  function Fnv(bytes: seq<u8>): u32 {
    if bytes == [] then FNV_OFFSET else FnvStep(Fnv(bytes[..|bytes| - 1]), bytes[|bytes| - 1])
  }

  lemma FnvSnoc(bytes: seq<u8>, byte: u8)
    ensures Fnv(bytes + [byte]) == FnvStep(Fnv(bytes), byte)
  {
    assert (bytes + [byte])[..|bytes|] == bytes;
  }

  // ---- Byte streams ----

  function Bytes16Of(v: u16): seq<u8> { [B0(v), B1(v)] }

  function Bytes32Of(v: u32): seq<u8> { [B0(v), B1(v), B2(v), B3(v)] }

  function EffectBytes(e: Effect): (r: seq<u8>)
    ensures |r| == 14
  {
    [EffectKind(e), e.color.r, e.color.g, e.color.b] + Bytes32Of(EffectPeriod(e)) + Bytes32Of(EffectPhase(e))
    + Bytes16Of(EffectAuxiliary(e))
  }

  function ParamsBytes(p: Option<ExtensionParams>): seq<u8> {
    match p
    case None => [0]
    case Some(params) => [1, params.effect, |params.values|] + params.values
  }

  function LayerBytes(gate: Option<LayerCondition>): seq<u8> {
    match gate case None => [0] case Some(g) => [1, g.layer, BoolByte(g.active)]
  }

  function BatteryBytes(gate: Option<BatteryCondition>): seq<u8> {
    match gate
    case None => [0]
    case Some(g) => [1, g.node, BoolByte(g.minLevel.Some?), g.minLevel.UnwrapOr(0),
                     BoolByte(g.maxLevel.Some?), g.maxLevel.UnwrapOr(0), ChargeByte(g.charge)]
  }

  function TransportBytes(t: Option<Transport>): seq<u8> {
    match t case None => [0] case Some(x) => [1, TransportByte(x)]
  }

  function ProfileBytes(p: Option<u8>): seq<u8> { [BoolByte(p.Some?), p.UnwrapOr(0)] }

  function BleStateBytes(s: Option<BleState>): seq<u8> {
    match s case None => [0] case Some(x) => [1, BleStateByte(x)]
  }

  function BondedBytes(b: Option<BondedSlotCondition>): seq<u8> {
    match b case None => [0] case Some(x) => [1, x.slot, BoolByte(x.bonded)]
  }

  function UsbBytes(u: Option<bool>): seq<u8> { [BoolByte(u.Some?), BoolByte(u == Some(true))] }

  function ConnectionFieldBytes(c: ConnectionCondition): seq<u8> {
    TransportBytes(c.transport)
    + (ProfileBytes(c.profile) + (BleStateBytes(c.bleState) + (BondedBytes(c.bonded) + UsbBytes(c.usbConnected))))
  }

  function ConnectionBytes(c: Option<ConnectionCondition>): seq<u8> {
    match c case None => [0] case Some(x) => [1] + ConnectionFieldBytes(x)
  }

  function OutputModeBytes(m: Option<OutputMode>): seq<u8> {
    match m case None => [0] case Some(x) => [1, OutputModeByte(x)]
  }

  function EffectsGateBytes(e: Option<EffectsCondition>): seq<u8> {
    match e case None => [0] case Some(x) => [1, BoolByte(x.enabled)]
  }

  /** Note what is absent: the layers, indicators, maintenance and
      split-transport gates are not hashed. */
  function ConditionsBytes(c: ConditionSet): seq<u8> {
    LayerBytes(c.layer)
    + (BatteryBytes(c.battery)
       + (ConnectionBytes(c.connection) + (OutputModeBytes(c.outputMode) + EffectsGateBytes(c.effects))))
  }

  function ModeByte(m: BackgroundMode): u8 { if m.SolidBackground? then 0 else 1 }

  function MutableBytes(s: Snapshot): seq<u8> {
    var background := s.mutable.background;
    [BoolByte(s.mutable.outputEnabled), s.mutable.outputBrightness, BoolByte(background.enabled), background.hue,
     background.saturation, background.value, background.speed, ModeByte(background.mode),
     OutputModeByte(s.outputMode), PolicyByte(s.scenes.policy)]
  }

  function ExtensionStream(e: Option<ExtensionState>): seq<u8> {
    match e case None => [0] case Some(x) => [1, x.effect, x.palette, x.value, x.speed]
  }

  function LayersStream(layers: Option<ExtensionLayers>): seq<u8> {
    match layers case None => [0] case Some(x) => [1, BoolByte(x.overlay.Some?), x.overlay.UnwrapOr(0)]
  }

  function SettingsStream(s: Snapshot): seq<u8> {
    MutableBytes(s) + ExtensionStream(s.extension) + LayersStream(s.extensionLayers)
    + ParamsBytes(s.extensionParams) + ParamsBytes(s.extensionOverlayParams)
  }

  function FindOverlay(cells: seq<OverlayCell>, slot: int): (r: Option<OverlayCell>)
    ensures r.Some? ==> r.value in cells && r.value.slot == slot
  {
    if cells == [] then None
    else
      var before := FindOverlay(cells[..|cells| - 1], slot);
      if before.Some? then before
      else if cells[|cells| - 1].slot == slot then Some(cells[|cells| - 1])
      else None
  }

  function FindScene(cells: seq<SceneCell>, layer: int, slot: int): (r: Option<SceneCell>)
    ensures r.Some? ==> r.value in cells && r.value.layer == layer && r.value.slot == slot
  {
    if cells == [] then None
    else
      var before := FindScene(cells[..|cells| - 1], layer, slot);
      if before.Some? then before
      else if cells[|cells| - 1].layer == layer && cells[|cells| - 1].slot == slot then Some(cells[|cells| - 1])
      else None
  }

  type OverlayView = map<int, Effect>
  type SceneView = map<(int, int), Effect>

  /** The right-half overlay as the map it means. */
  function OverlayMap(cells: seq<OverlayCell>): OverlayView {
    map slot: int | LEDS_PER_HALF <= slot < TOTAL_LEDS && FindOverlay(cells, slot).Some?
      :: FindOverlay(cells, slot).value.effect
  }

  function SceneMap(cells: seq<SceneCell>): SceneView {
    map layer: int, slot: int
      | 0 <= layer < LAYER_CAPACITY && LEDS_PER_HALF <= slot < TOTAL_LEDS && FindScene(cells, layer, slot).Some?
      :: (layer, slot) := FindScene(cells, layer, slot).value.effect
  }

  function OverlayRecord(slot: u16, e: Effect): (r: seq<u8>)
    ensures |r| == 16
  {
    Bytes16Of(slot) + EffectBytes(e)
  }

  function SceneRecord(layer: u8, slot: u16, e: Effect): (r: seq<u8>)
    ensures |r| == 17
  {
    [layer] + Bytes16Of(slot) + EffectBytes(e)
  }

  /** Records of the slots from `slot` on, in slot order. */
  function OverlayRecords(view: OverlayView, slot: nat): seq<u8>
    requires LEDS_PER_HALF <= slot
    decreases TOTAL_LEDS - slot
  {
    if slot >= TOTAL_LEDS then []
    else (if slot in view then OverlayRecord(slot, view[slot]) else []) + OverlayRecords(view, slot + 1)
  }

  function SceneRecords(view: SceneView, layer: nat, slot: nat): seq<u8>
    requires LEDS_PER_HALF <= slot
    decreases LAYER_CAPACITY - layer, TOTAL_LEDS - slot
  {
    if layer >= LAYER_CAPACITY then []
    else if slot >= TOTAL_LEDS then SceneRecords(view, layer + 1, LEDS_PER_HALF)
    else
      (if (layer, slot) in view then SceneRecord(layer, slot, view[(layer, slot)]) else [])
      + SceneRecords(view, layer, slot + 1)
  }

  function ConditionalRecord(c: ConditionalCell): seq<u8> {
    Bytes16Of(c.slot) + (ConditionsBytes(c.conditions) + EffectBytes(c.effect))
  }

  function ConditionalRecords(cells: seq<ConditionalCell>): seq<u8> {
    if cells == [] then [] else ConditionalRecord(cells[0]) + ConditionalRecords(cells[1..])
  }

  function Count16(n: nat): seq<u8> { Bytes16Of(n % 0x1_0000) }

  function OverlayStream(cells: seq<OverlayCell>): seq<u8> {
    Count16(|RightOverlay(cells)|) + OverlayRecords(OverlayMap(cells), LEDS_PER_HALF)
  }

  function ScenesStream(cells: seq<SceneCell>): seq<u8> {
    Count16(|RightScenes(cells)|) + SceneRecords(SceneMap(cells), 0, LEDS_PER_HALF)
  }

  function ConditionalStream(cells: seq<ConditionalCell>): seq<u8> {
    Count16(|RightConditional(cells)|) + ConditionalRecords(RightConditional(cells))
  }

  function DomainHash(domain: u8, stream: seq<u8>): u32 { Fnv([DIGEST_SCHEMA, domain] + stream) }

  function ReplicaDigests(s: Snapshot): Digests {
    Digests(DIGEST_SCHEMA, s.revision, DomainHash(1, SettingsStream(s)), DomainHash(2, OverlayStream(s.overlay)),
            DomainHash(3, ScenesStream(s.scenes.cells)), DomainHash(4, ConditionalStream(s.conditional)))
  }

  // ---- The hasher and the digest loops ----

  class Fnv32 {
    var hash: u32
    ghost var fed: seq<u8>

    ghost predicate Valid()
      reads this
    {
      hash == Fnv(fed)
    }

    constructor Domain(domain: u8)
      ensures Valid() && fed == [DIGEST_SCHEMA, domain]
    {
      hash := FNV_OFFSET;
      fed := [];
      new;
      Byte(DIGEST_SCHEMA);
      Byte(domain);
      assert [] + [DIGEST_SCHEMA] + [domain] == [DIGEST_SCHEMA, domain];
    }

    method Byte(value: u8)
      requires Valid()
      modifies this
      ensures Valid() && fed == old(fed) + [value]
    {
      FnvSnoc(fed, value);
      hash := FnvStep(hash, value);
      fed := fed + [value];
    }

    method Bytes(values: seq<u8>)
      requires Valid()
      modifies this
      ensures Valid() && fed == old(fed) + values
    {
      hide Valid, Fnv;
      for i := 0 to |values|
        invariant Valid() && fed == old(fed) + values[..i]
      {
        Byte(values[i]);
        assert values[..i + 1] == values[..i] + [values[i]];
      }
      assert values[..|values|] == values;
    }

    method U16(value: u16)
      requires Valid()
      modifies this
      ensures Valid() && fed == old(fed) + Bytes16Of(value)
    {
      Bytes(Bytes16Of(value));
    }

    method U32(value: u32)
      requires Valid()
      modifies this
      ensures Valid() && fed == old(fed) + Bytes32Of(value)
    {
      Bytes(Bytes32Of(value));
    }

    method HashEffect(e: Effect)
      requires Valid()
      modifies this
      ensures Valid() && fed == old(fed) + EffectBytes(e)
    {
      hide Valid, Fnv, Bytes16Of, Bytes32Of;
      Byte(EffectKind(e));
      Bytes([e.color.r, e.color.g, e.color.b]);
      U32(EffectPeriod(e));
      U32(EffectPhase(e));
      U16(EffectAuxiliary(e));
      assert [EffectKind(e)] + [e.color.r, e.color.g, e.color.b] == [EffectKind(e), e.color.r, e.color.g, e.color.b];
      assert fed == old(fed) + EffectBytes(e);
    }

    method HashParams(p: Option<ExtensionParams>)
      requires Valid()
      modifies this
      ensures Valid() && fed == old(fed) + ParamsBytes(p)
    {
      hide Valid, Fnv;
      Byte(BoolByte(p.Some?));
      if p.Some? {
        Byte(p.value.effect);
        Byte(|p.value.values|);
        Bytes(p.value.values);
        assert [1] + [p.value.effect] + [|p.value.values|] + p.value.values == ParamsBytes(p);
      }
    }

    method HashTransport(t: Option<Transport>)
      requires Valid()
      modifies this
      ensures Valid() && fed == old(fed) + TransportBytes(t)
    {
      hide Valid, Fnv;
      Byte(BoolByte(t.Some?));
      if t.Some? { Byte(TransportByte(t.value)); }
    }

    method HashBleState(s: Option<BleState>)
      requires Valid()
      modifies this
      ensures Valid() && fed == old(fed) + BleStateBytes(s)
    {
      hide Valid, Fnv;
      Byte(BoolByte(s.Some?));
      if s.Some? { Byte(BleStateByte(s.value)); }
    }

    method HashBonded(b: Option<BondedSlotCondition>)
      requires Valid()
      modifies this
      ensures Valid() && fed == old(fed) + BondedBytes(b)
    {
      hide Valid, Fnv;
      Byte(BoolByte(b.Some?));
      if b.Some? { Bytes([b.value.slot, BoolByte(b.value.bonded)]); }
    }

    method HashProfile(p: Option<u8>)
      requires Valid()
      modifies this
      ensures Valid() && fed == old(fed) + ProfileBytes(p)
    {
      hide Valid, Fnv;
      Byte(BoolByte(p.Some?));
      Byte(p.UnwrapOr(0));
    }

    method HashUsb(u: Option<bool>)
      requires Valid()
      modifies this
      ensures Valid() && fed == old(fed) + UsbBytes(u)
    {
      hide Valid, Fnv;
      Byte(BoolByte(u.Some?));
      Byte(BoolByte(u.UnwrapOr(false)));
    }

    method HashConnectionFields(c: ConnectionCondition)
      requires Valid()
      modifies this
      ensures Valid() && fed == old(fed) + ConnectionFieldBytes(c)
    {
      hide Valid, TransportBytes, ProfileBytes, BleStateBytes, BondedBytes, UsbBytes;
      HashTransport(c.transport);
      HashProfile(c.profile);
      HashBleState(c.bleState);
      HashBonded(c.bonded);
      HashUsb(c.usbConnected);
      assert fed == old(fed) + ConnectionFieldBytes(c);
    }

    method HashConnection(c: Option<ConnectionCondition>)
      requires Valid()
      modifies this
      ensures Valid() && fed == old(fed) + ConnectionBytes(c)
    {
      hide Valid, ConnectionFieldBytes;
      Byte(BoolByte(c.Some?));
      if c.Some? { HashConnectionFields(c.value); }
    }

    method HashLayerGate(gate: Option<LayerCondition>)
      requires Valid()
      modifies this
      ensures Valid() && fed == old(fed) + LayerBytes(gate)
    {
      hide Valid, Fnv;
      Byte(BoolByte(gate.Some?));
      if gate.Some? { Bytes([gate.value.layer, BoolByte(gate.value.active)]); }
    }

    method HashBatteryGate(gate: Option<BatteryCondition>)
      requires Valid()
      modifies this
      ensures Valid() && fed == old(fed) + BatteryBytes(gate)
    {
      hide Valid, Fnv;
      Byte(BoolByte(gate.Some?));
      if gate.Some? {
        var g := gate.value;
        Bytes([g.node, BoolByte(g.minLevel.Some?), g.minLevel.UnwrapOr(0), BoolByte(g.maxLevel.Some?),
               g.maxLevel.UnwrapOr(0), ChargeByte(g.charge)]);
      }
    }

    method HashOutputMode(mode: Option<OutputMode>)
      requires Valid()
      modifies this
      ensures Valid() && fed == old(fed) + OutputModeBytes(mode)
    {
      hide Valid, Fnv;
      Byte(BoolByte(mode.Some?));
      if mode.Some? { Byte(OutputModeByte(mode.value)); }
    }

    method HashEffectsGate(gate: Option<EffectsCondition>)
      requires Valid()
      modifies this
      ensures Valid() && fed == old(fed) + EffectsGateBytes(gate)
    {
      hide Valid, Fnv;
      Byte(BoolByte(gate.Some?));
      if gate.Some? { Byte(BoolByte(gate.value.enabled)); }
    }

    method HashConditions(c: ConditionSet)
      requires Valid()
      modifies this
      ensures Valid() && fed == old(fed) + ConditionsBytes(c)
    {
      hide Valid, LayerBytes, BatteryBytes, ConnectionBytes, OutputModeBytes, EffectsGateBytes;
      HashLayerGate(c.layer);
      HashBatteryGate(c.battery);
      HashConnection(c.connection);
      HashOutputMode(c.outputMode);
      HashEffectsGate(c.effects);
      assert fed == old(fed) + ConditionsBytes(c);
    }

    method HashOverlayCell(c: OverlayCell)
      requires Valid()
      modifies this
      ensures Valid() && fed == old(fed) + OverlayRecord(c.slot, c.effect)
    {
      hide Valid, EffectBytes, Bytes16Of;
      U16(c.slot);
      HashEffect(c.effect);
      assert fed == old(fed) + OverlayRecord(c.slot, c.effect);
    }

    method HashSceneCell(c: SceneCell)
      requires Valid()
      modifies this
      ensures Valid() && fed == old(fed) + SceneRecord(c.layer, c.slot, c.effect)
    {
      hide Valid, EffectBytes, Bytes16Of;
      Bytes([c.layer]);
      U16(c.slot);
      HashEffect(c.effect);
      assert fed == old(fed) + SceneRecord(c.layer, c.slot, c.effect);
    }

    method HashConditionalCell(c: ConditionalCell)
      requires Valid()
      modifies this
      ensures Valid() && fed == old(fed) + ConditionalRecord(c)
    {
      hide Valid, EffectBytes, ConditionsBytes, Bytes16Of;
      U16(c.slot);
      HashConditions(c.conditions);
      HashEffect(c.effect);
      assert fed == old(fed) + ConditionalRecord(c);
    }

    method HashExtension(e: Option<ExtensionState>)
      requires Valid()
      modifies this
      ensures Valid() && fed == old(fed) + ExtensionStream(e)
    {
      hide Valid, Fnv;
      Byte(BoolByte(e.Some?));
      if e.Some? { Bytes([e.value.effect, e.value.palette, e.value.value, e.value.speed]); }
    }

    method HashLayers(layers: Option<ExtensionLayers>)
      requires Valid()
      modifies this
      ensures Valid() && fed == old(fed) + LayersStream(layers)
    {
      hide Valid, Fnv;
      Byte(BoolByte(layers.Some?));
      if layers.Some? {
        Byte(BoolByte(layers.value.overlay.Some?));
        Byte(layers.value.overlay.UnwrapOr(0));
      }
    }
  }

  method HashSettings(s: Snapshot) returns (hash: u32)
    ensures hash == DomainHash(1, SettingsStream(s))
  {
    hide Fnv, MutableBytes, ExtensionStream, LayersStream, ParamsBytes;
    var settings := new Fnv32.Domain(1);
    settings.Bytes(MutableBytes(s));
    settings.HashExtension(s.extension);
    settings.HashLayers(s.extensionLayers);
    settings.HashParams(s.extensionParams);
    settings.HashParams(s.extensionOverlayParams);
    hash := settings.hash;
    assert settings.fed == [DIGEST_SCHEMA, 1] + SettingsStream(s);
  }

  lemma RecordsAfter(fed: seq<u8>, here: seq<u8>, rest: seq<u8>)
    ensures fed + here + rest == fed + (here + rest)
    ensures fed + ([] + rest) == fed + rest
    ensures fed + [] == fed
  {
  }

  method HashOverlay(cells: seq<OverlayCell>) returns (hash: u32)
    ensures hash == DomainHash(2, OverlayStream(cells))
  {
    hide Fnv, OverlayRecord, FindOverlay;
    var overlay := new Fnv32.Domain(2);
    overlay.U16(|RightOverlay(cells)| % 0x1_0000);
    ghost var view, start := OverlayMap(cells), overlay.fed;
    for slot := LEDS_PER_HALF to TOTAL_LEDS
      invariant overlay.Valid() && fresh(overlay)
      invariant overlay.fed + OverlayRecords(view, slot) == start + OverlayRecords(view, LEDS_PER_HALF)
    {
      ghost var before := overlay.fed;
      var found := FindOverlay(cells, slot);
      if found.Some? {
        overlay.HashOverlayCell(found.value);
        RecordsAfter(before, OverlayRecord(slot, view[slot]), OverlayRecords(view, slot + 1));
      } else {
        RecordsAfter(before, [], OverlayRecords(view, slot + 1));
      }
    }
    RecordsAfter(overlay.fed, [], []);
    RecordsAfter([DIGEST_SCHEMA, 2], Count16(|RightOverlay(cells)|), OverlayRecords(view, LEDS_PER_HALF));
    hash := overlay.hash;
  }

  /** One slot of one layer, in terms of the table. */
  lemma SceneRecordsStep(cells: seq<SceneCell>, layer: nat, slot: nat)
    requires layer < LAYER_CAPACITY && LEDS_PER_HALF <= slot < TOTAL_LEDS
    ensures var found := FindScene(cells, layer, slot);
            SceneRecords(SceneMap(cells), layer, slot)
            == (if found.Some? then SceneRecord(layer, slot, found.value.effect) else [])
               + SceneRecords(SceneMap(cells), layer, slot + 1)
  {
    hide FindScene, SceneRecord;
  }

  lemma SceneRecordsEnds(view: SceneView, layer: nat)
    ensures layer < LAYER_CAPACITY ==>
      SceneRecords(view, layer, TOTAL_LEDS) == SceneRecords(view, layer + 1, LEDS_PER_HALF)
    ensures SceneRecords(view, LAYER_CAPACITY, LEDS_PER_HALF) == []
  {
  }

  /** The slots of one layer, in order. */
  method HashLayer(scenes: Fnv32, cells: seq<SceneCell>, layer: nat)
    requires scenes.Valid() && layer < LAYER_CAPACITY
    modifies scenes
    ensures scenes.Valid()
    ensures scenes.fed + SceneRecords(SceneMap(cells), layer + 1, LEDS_PER_HALF)
            == old(scenes.fed) + SceneRecords(SceneMap(cells), layer, LEDS_PER_HALF)
  {
    hide Fnv, SceneRecord, FindScene, SceneMap, SceneRecords;
    ghost var view := SceneMap(cells);
    for slot := LEDS_PER_HALF to TOTAL_LEDS
      invariant scenes.Valid()
      invariant scenes.fed + SceneRecords(view, layer, slot) == old(scenes.fed) + SceneRecords(view, layer,
        LEDS_PER_HALF)
    {
      ghost var before := scenes.fed;
      SceneRecordsStep(cells, layer, slot);
      var found := FindScene(cells, layer, slot);
      if found.Some? {
        scenes.HashSceneCell(found.value);
        RecordsAfter(before, SceneRecord(layer, slot, found.value.effect), SceneRecords(view, layer, slot + 1));
      } else {
        RecordsAfter(before, [], SceneRecords(view, layer, slot + 1));
      }
    }
    SceneRecordsEnds(view, layer);
  }

  method HashScenes(cells: seq<SceneCell>) returns (hash: u32)
    ensures hash == DomainHash(3, ScenesStream(cells))
  {
    ghost var view := SceneMap(cells);
    ghost var records := SceneRecords(view, 0, LEDS_PER_HALF);
    assert ScenesStream(cells) == Count16(|RightScenes(cells)|) + records;
    hide Fnv, SceneMap, SceneRecords, ScenesStream;
    var scenes := new Fnv32.Domain(3);
    scenes.U16(|RightScenes(cells)| % 0x1_0000);
    ghost var all := scenes.fed + records;
    for layer := 0 to LAYER_CAPACITY
      invariant scenes.Valid() && fresh(scenes)
      invariant scenes.fed + SceneRecords(view, layer, LEDS_PER_HALF) == all
    {
      HashLayer(scenes, cells, layer);
    }
    SceneRecordsEnds(view, LAYER_CAPACITY);
    RecordsAfter(scenes.fed, [], []);
    RecordsAfter([DIGEST_SCHEMA, 3], Count16(|RightScenes(cells)|), records);
    hash := scenes.hash;
  }

  method HashConditionalScenes(cells: seq<ConditionalCell>) returns (hash: u32)
    ensures hash == DomainHash(4, ConditionalStream(cells))
  {
    hide Fnv, ConditionalRecord;
    var scenes := new Fnv32.Domain(4);
    var right := RightConditional(cells);
    scenes.U16(|right| % 0x1_0000);
    ghost var start := scenes.fed;
    assert right[0..] == right;
    for i := 0 to |right|
      invariant scenes.Valid() && fresh(scenes)
      invariant scenes.fed + ConditionalRecords(right[i..]) == start + ConditionalRecords(right)
    {
      ghost var before := scenes.fed;
      scenes.HashConditionalCell(right[i]);
      assert right[i..][1..] == right[i + 1..];
      RecordsAfter(before, ConditionalRecord(right[i]), ConditionalRecords(right[i + 1..]));
    }
    RecordsAfter(scenes.fed, [], []);
    RecordsAfter([DIGEST_SCHEMA, 4], Count16(|right|), ConditionalRecords(right));
    hash := scenes.hash;
  }

  /** The digests as the firmware computes them. */
  method ComputeDigests(s: Snapshot) returns (d: Digests)
    ensures d == ReplicaDigests(s)
  {
    var settings := HashSettings(s);
    var overlay := HashOverlay(s.overlay);
    var scenes := HashScenes(s.scenes.cells);
    var conditional := HashConditionalScenes(s.conditional);
    d := Digests(DIGEST_SCHEMA, s.revision, settings, overlay, scenes, conditional);
  }
}

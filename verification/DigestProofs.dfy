/** What the digests depend on, and that both halves compute the same ones. */
module DigestProofs {
  import opened Prelude
  import opened Boards
  import opened Lighting
  import opened Codec
  import opened CodecProofs
  import opened Digesting
  import opened Loss

  // ---- The streams determine what they were made from ----

  lemma Bytes32Injective(a: u32, b: u32)
    requires Bytes32Of(a) == Bytes32Of(b)
    ensures a == b
  {
    var x, y := Bytes32Of(a), Bytes32Of(b);
    assert x[0] == y[0] && x[1] == y[1] && x[2] == y[2] && x[3] == y[3];
    Bytes32(a);
    Bytes32(b);
  }

  lemma Bytes16Injective(a: u16, b: u16)
    requires Bytes16Of(a) == Bytes16Of(b)
    ensures a == b
  {
    var x, y := Bytes16Of(a), Bytes16Of(b);
    assert x[0] == y[0] && x[1] == y[1];
    Bytes16(a);
    Bytes16(b);
  }

  lemma EffectBytesInjective(a: Effect, b: Effect)
    requires EffectBytes(a) == EffectBytes(b)
    ensures a == b
  {
    hide Bytes32Of, Bytes16Of;
    var x, y := EffectBytes(a), EffectBytes(b);
    EffectBytesParts(a);
    EffectBytesParts(b);
    assert x[0] == y[0] && x[1] == y[1] && x[2] == y[2] && x[3] == y[3];
    Bytes32Injective(EffectPeriod(a), EffectPeriod(b));
    Bytes32Injective(EffectPhase(a), EffectPhase(b));
    Bytes16Injective(EffectAuxiliary(a), EffectAuxiliary(b));
  }

  lemma EffectBytesParts(e: Effect)
    ensures var x := EffectBytes(e);
            && x[0] == EffectKind(e) && x[1] == e.color.r && x[2] == e.color.g && x[3] == e.color.b
            && x[4..8] == Bytes32Of(EffectPeriod(e)) && x[8..12] == Bytes32Of(EffectPhase(e))
            && x[12..14] == Bytes16Of(EffectAuxiliary(e))
  {
  }

  /** Equal concatenations with equally long heads have equal heads and tails. */
  lemma SplitEqual(a: seq<u8>, x: seq<u8>, b: seq<u8>, y: seq<u8>)
    requires a + x == b + y && |a| == |b|
    ensures a == b && x == y
  {
    assert a == (a + x)[..|a|] && b == (b + y)[..|b|];
    assert x == (a + x)[|a|..] && y == (b + y)[|b|..];
  }

  /** Records from `slot` on are empty or start with a slot at least that. */
  lemma {:induction false} OverlayRecordsHead(view: OverlayView, slot: nat)
    requires LEDS_PER_HALF <= slot
    ensures var r := OverlayRecords(view, slot); r == [] || r[0] >= slot
    decreases TOTAL_LEDS - slot
  {
    if slot < TOTAL_LEDS && slot !in view {
      OverlayRecordsHead(view, slot + 1);
    }
  }

  lemma OverlayRecordFirst(view: OverlayView, slot: nat)
    requires LEDS_PER_HALF <= slot < TOTAL_LEDS && slot in view
    ensures var r := OverlayRecords(view, slot); r != [] && r[0] == slot
  {
    hide EffectBytes;
  }

  lemma OverlayNone(view: OverlayView, slot: nat)
    requires LEDS_PER_HALF <= slot < TOTAL_LEDS && slot !in view
    ensures OverlayRecords(view, slot) == OverlayRecords(view, slot + 1)
  {
  }

  lemma OverlayUnfold(view: OverlayView, slot: nat)
    requires LEDS_PER_HALF <= slot < TOTAL_LEDS && slot in view
    ensures OverlayRecords(view, slot) == Bytes16Of(slot) + EffectBytes(view[slot]) + OverlayRecords(view, slot + 1)
  {
    hide EffectBytes, Bytes16Of;
  }

  lemma OverlayBoth(v: OverlayView, w: OverlayView, slot: nat)
    requires LEDS_PER_HALF <= slot < TOTAL_LEDS && slot in v && slot in w
    requires OverlayRecords(v, slot) == OverlayRecords(w, slot)
    ensures v[slot] == w[slot] && OverlayRecords(v, slot + 1) == OverlayRecords(w, slot + 1)
  {
    hide EffectBytes, Bytes16Of, OverlayRecords;
    OverlayUnfold(v, slot);
    OverlayUnfold(w, slot);
    SplitEqual(Bytes16Of(slot) + EffectBytes(v[slot]), OverlayRecords(v, slot + 1),
               Bytes16Of(slot) + EffectBytes(w[slot]), OverlayRecords(w, slot + 1));
    SplitEqual(Bytes16Of(slot), EffectBytes(v[slot]), Bytes16Of(slot), EffectBytes(w[slot]));
    EffectBytesInjective(v[slot], w[slot]);
  }

  lemma OverlayHere(v: OverlayView, w: OverlayView, slot: nat)
    requires LEDS_PER_HALF <= slot < TOTAL_LEDS
    requires OverlayRecords(v, slot) == OverlayRecords(w, slot)
    ensures (slot in v <==> slot in w) && (slot in v ==> v[slot] == w[slot])
    ensures OverlayRecords(v, slot + 1) == OverlayRecords(w, slot + 1)
  {
    hide OverlayRecords, OverlayRecord;
    if slot in v && slot in w {
      OverlayBoth(v, w, slot);
    } else {
      OverlayRecordsHead(v, slot + 1);
      OverlayRecordsHead(w, slot + 1);
      if slot in v {
        OverlayRecordFirst(v, slot);
        OverlayNone(w, slot);
      } else if slot in w {
        OverlayRecordFirst(w, slot);
        OverlayNone(v, slot);
      } else {
        OverlayNone(v, slot);
        OverlayNone(w, slot);
      }
    }
  }

  /** The records determine the view. */
  lemma {:induction false} OverlayRecordsInjective(v: OverlayView, w: OverlayView, slot: nat)
    requires LEDS_PER_HALF <= slot
    requires OverlayRecords(v, slot) == OverlayRecords(w, slot)
    ensures forall k :: slot <= k < TOTAL_LEDS ==> (k in v <==> k in w) && (k in v ==> v[k] == w[k])
    decreases TOTAL_LEDS - slot
  {
    if slot < TOTAL_LEDS {
      hide OverlayRecords;
      OverlayHere(v, w, slot);
      OverlayRecordsInjective(v, w, slot + 1);
    }
  }

  lemma OverlayMapSnoc(init: seq<OverlayCell>, last: OverlayCell)
    requires last.slot < TOTAL_LEDS && FindOverlay(init, last.slot).None?
    ensures OverlayMap(init + [last]) ==
            if OnRight(last.slot) then OverlayMap(init)[last.slot as int := last.effect] else OverlayMap(init)
  {
    assert (init + [last])[..|init|] == init;
    assert forall k :: FindOverlay(init + [last], k)
                       == if FindOverlay(init, k).Some? then FindOverlay(init, k)
                          else if last.slot == k then Some(last) else None;
    hide FindOverlay;
  }

  /** Distinct slots in range make the announced count the size of the view. */
  lemma {:induction false} OverlayCount(cells: seq<OverlayCell>)
    requires UniqueOverlay(cells) && forall c :: c in cells ==> c.slot < TOTAL_LEDS
    ensures |RightOverlay(cells)| == |OverlayMap(cells)|
  {
    if cells == [] {
      assert OverlayMap(cells) == map[];
    } else {
      var init, last := cells[..|cells| - 1], cells[|cells| - 1];
      OverlayCount(init);
      assert cells == init + [last] && last in cells;
      OverlayMapSnoc(init, last);
      assert last.slot as int !in OverlayMap(init);
      hide OverlayMap, FindOverlay;
    }
  }

  /** Canonical overlay digest input: a function of the right-half map from
      slot to effect, and an injective one. Order, time-to-live and left-half
      cells do not enter. */
  lemma CanonicalOverlay(a: seq<OverlayCell>, b: seq<OverlayCell>)
    requires UniqueOverlay(a) && forall c :: c in a ==> c.slot < TOTAL_LEDS
    requires UniqueOverlay(b) && forall c :: c in b ==> c.slot < TOTAL_LEDS
    ensures OverlayStream(a) == OverlayStream(b) <==> OverlayMap(a) == OverlayMap(b)
  {
    OverlayCount(a);
    OverlayCount(b);
    var v, w := OverlayMap(a), OverlayMap(b);
    if OverlayStream(a) == OverlayStream(b) {
      SplitEqual(Count16(|RightOverlay(a)|), OverlayRecords(v, LEDS_PER_HALF),
                 Count16(|RightOverlay(b)|), OverlayRecords(w, LEDS_PER_HALF));
      OverlayRecordsInjective(v, w, LEDS_PER_HALF);
      OverlayMapDomain(a);
      OverlayMapDomain(b);
      SameView(v, w);
    }
  }

  lemma OverlayMapDomain(cells: seq<OverlayCell>)
    ensures forall k :: k in OverlayMap(cells) ==> LEDS_PER_HALF <= k < TOTAL_LEDS
  {
  }

  lemma SameView(v: OverlayView, w: OverlayView)
    requires forall k :: k in v || k in w ==> LEDS_PER_HALF <= k < TOTAL_LEDS
    requires forall k :: LEDS_PER_HALF <= k < TOTAL_LEDS ==> (k in v <==> k in w) && (k in v ==> v[k] == w[k])
    ensures v == w
  {
    assert v.Keys == w.Keys;
    assert forall k :: k in v ==> v[k] == w[k];
  }

  // ---- Scenes ----

  lemma {:induction false} SceneRecordsHead(view: SceneView, layer: nat, slot: nat)
    requires LEDS_PER_HALF <= slot
    ensures var r := SceneRecords(view, layer, slot);
            r == [] || (|r| >= 3 && (r[0] > layer || (r[0] == layer && r[1] >= slot)))
    decreases LAYER_CAPACITY - layer, TOTAL_LEDS - slot
  {
    if layer < LAYER_CAPACITY {
      if slot >= TOTAL_LEDS {
        SceneRecordsHead(view, layer + 1, LEDS_PER_HALF);
      } else if (layer, slot) in view {
        assert SceneRecords(view, layer, slot)[0] == layer && SceneRecords(view, layer, slot)[1] == B0(slot) == slot;
      } else {
        SceneRecordsHead(view, layer, slot + 1);
      }
    }
  }

  /** At or after `(layer, slot)` in the order the digest visits. */
  predicate NotBefore(k: (int, int), layer: nat, slot: nat) {
    && 0 <= k.0 < LAYER_CAPACITY && LEDS_PER_HALF <= k.1 < TOTAL_LEDS
    && (k.0 > layer || (k.0 == layer && k.1 >= slot))
  }

  predicate Agree(v: SceneView, w: SceneView, k: (int, int)) {
    (k in v <==> k in w) && (k in v ==> v[k] == w[k])
  }

  lemma {:induction false} SceneRecordsInjective(v: SceneView, w: SceneView, layer: nat, slot: nat)
    requires LEDS_PER_HALF <= slot
    requires SceneRecords(v, layer, slot) == SceneRecords(w, layer, slot)
    ensures forall k :: NotBefore(k, layer, slot) ==> Agree(v, w, k)
    decreases LAYER_CAPACITY - layer, TOTAL_LEDS - slot
  {
    if layer < LAYER_CAPACITY {
      if slot >= TOTAL_LEDS {
        SceneRecordsInjective(v, w, layer + 1, LEDS_PER_HALF);
        assert forall k :: NotBefore(k, layer, slot) ==> NotBefore(k, layer + 1, LEDS_PER_HALF);
      } else {
        SceneHere(v, w, layer, slot);
        SceneRecordsInjective(v, w, layer, slot + 1);
        assert forall k :: NotBefore(k, layer, slot) && k != (layer, slot) ==> NotBefore(k, layer, slot + 1);
      }
    }
  }

  lemma SceneNone(view: SceneView, layer: nat, slot: nat)
    requires layer < LAYER_CAPACITY && LEDS_PER_HALF <= slot < TOTAL_LEDS && (layer, slot) !in view
    ensures SceneRecords(view, layer, slot) == SceneRecords(view, layer, slot + 1)
  {
  }

  lemma SceneUnfold(view: SceneView, layer: nat, slot: nat)
    requires layer < LAYER_CAPACITY && LEDS_PER_HALF <= slot < TOTAL_LEDS && (layer, slot) in view
    ensures SceneRecords(view, layer, slot) ==
            [layer] + Bytes16Of(slot) + EffectBytes(view[(layer, slot)]) + SceneRecords(view, layer, slot + 1)
  {
    hide EffectBytes, Bytes16Of;
  }

  lemma SceneBoth(v: SceneView, w: SceneView, layer: nat, slot: nat)
    requires layer < LAYER_CAPACITY && LEDS_PER_HALF <= slot < TOTAL_LEDS
    requires (layer, slot) in v && (layer, slot) in w && SceneRecords(v, layer, slot) == SceneRecords(w, layer, slot)
    ensures v[(layer, slot)] == w[(layer, slot)]
    ensures SceneRecords(v, layer, slot + 1) == SceneRecords(w, layer, slot + 1)
  {
    hide EffectBytes, Bytes16Of, SceneRecords;
    var key, x, y := [layer] + Bytes16Of(slot), v[(layer, slot)], w[(layer, slot)];
    SceneUnfold(v, layer, slot);
    SceneUnfold(w, layer, slot);
    SplitEqual(key + EffectBytes(x), SceneRecords(v, layer, slot + 1),
               key + EffectBytes(y), SceneRecords(w, layer, slot + 1));
    SplitEqual(key, EffectBytes(x), key, EffectBytes(y));
    EffectBytesInjective(x, y);
  }

  lemma SceneHere(v: SceneView, w: SceneView, layer: nat, slot: nat)
    requires layer < LAYER_CAPACITY && LEDS_PER_HALF <= slot < TOTAL_LEDS
    requires SceneRecords(v, layer, slot) == SceneRecords(w, layer, slot)
    ensures Agree(v, w, (layer, slot)) && SceneRecords(v, layer, slot + 1) == SceneRecords(w, layer, slot + 1)
  {
    hide SceneRecords, SceneRecord;
    var k := (layer, slot);
    if k in v && k in w {
      SceneBoth(v, w, layer, slot);
    } else {
      SceneRecordsHead(v, layer, slot + 1);
      SceneRecordsHead(w, layer, slot + 1);
      if k in v {
        SceneRecordFirst(v, layer, slot);
        SceneNone(w, layer, slot);
      } else if k in w {
        SceneRecordFirst(w, layer, slot);
        SceneNone(v, layer, slot);
      } else {
        SceneNone(v, layer, slot);
        SceneNone(w, layer, slot);
      }
    }
  }

  lemma SceneRecordFirst(view: SceneView, layer: nat, slot: nat)
    requires layer < LAYER_CAPACITY && LEDS_PER_HALF <= slot < TOTAL_LEDS && (layer, slot) in view
    ensures var r := SceneRecords(view, layer, slot); |r| >= 3 && r[0] == layer && r[1] == slot
  {
    hide EffectBytes;
  }

  lemma FindSceneSnoc(init: seq<SceneCell>, last: SceneCell, l: int, k: int)
    ensures FindScene(init + [last], l, k) ==
            if FindScene(init, l, k).Some? then FindScene(init, l, k)
            else if last.layer == l && last.slot == k then Some(last) else None
  {
    assert (init + [last])[..|init|] == init;
  }

  lemma SceneMapSnoc(init: seq<SceneCell>, last: SceneCell)
    requires last.slot < TOTAL_LEDS && last.layer < LAYER_CAPACITY && FindScene(init, last.layer, last.slot).None?
    ensures SceneMap(init + [last]) ==
            if OnRight(last.slot) then SceneMap(init)[(last.layer as int, last.slot as int) := last.effect]
            else SceneMap(init)
  {
    hide FindScene;
    forall l, k { FindSceneSnoc(init, last, l, k); }
  }

  lemma {:induction false} SceneCount(cells: seq<SceneCell>)
    requires UniqueScenes(cells)
    requires forall c :: c in cells ==> c.slot < TOTAL_LEDS && c.layer < LAYER_CAPACITY
    ensures |RightScenes(cells)| == |SceneMap(cells)|
  {
    if cells == [] {
      assert SceneMap(cells) == map[];
    } else {
      var init, last := cells[..|cells| - 1], cells[|cells| - 1];
      SceneCount(init);
      assert cells == init + [last] && last in cells;
      SceneMapSnoc(init, last);
      assert (last.layer as int, last.slot as int) !in SceneMap(init);
      hide SceneMap, FindScene;
    }
  }

  /** Canonical scene digest input: an injective function of the right-half map
      from (layer, slot) to effect. */
  lemma CanonicalScenes(a: seq<SceneCell>, b: seq<SceneCell>)
    requires UniqueScenes(a) && forall c :: c in a ==> c.slot < TOTAL_LEDS && c.layer < LAYER_CAPACITY
    requires UniqueScenes(b) && forall c :: c in b ==> c.slot < TOTAL_LEDS && c.layer < LAYER_CAPACITY
    ensures ScenesStream(a) == ScenesStream(b) <==> SceneMap(a) == SceneMap(b)
  {
    SceneCount(a);
    SceneCount(b);
    var v, w := SceneMap(a), SceneMap(b);
    if ScenesStream(a) == ScenesStream(b) {
      SplitEqual(Count16(|RightScenes(a)|), SceneRecords(v, 0, LEDS_PER_HALF),
                 Count16(|RightScenes(b)|), SceneRecords(w, 0, LEDS_PER_HALF));
      SceneRecordsInjective(v, w, 0, LEDS_PER_HALF);
      SceneMapDomain(a);
      SceneMapDomain(b);
      SameSceneView(v, w);
    }
  }

  lemma SceneMapDomain(cells: seq<SceneCell>)
    ensures forall k :: k in SceneMap(cells) ==> NotBefore(k, 0, LEDS_PER_HALF)
  {
  }

  lemma SameSceneView(v: SceneView, w: SceneView)
    requires forall k :: k in v || k in w ==> NotBefore(k, 0, LEDS_PER_HALF)
    requires forall k :: NotBefore(k, 0, LEDS_PER_HALF) ==> Agree(v, w, k)
    ensures v == w
  {
    assert forall k :: k in v || k in w ==> Agree(v, w, k);
    assert v.Keys == w.Keys;
  }

  // ---- Conditional scenes ----

  lemma LayerPrefix(a: Option<LayerCondition>, x: seq<u8>, b: Option<LayerCondition>, y: seq<u8>)
    requires LayerBytes(a) + x == LayerBytes(b) + y
    ensures a == b && x == y
  {
    assert (LayerBytes(a) + x)[0] == LayerBytes(a)[0] && (LayerBytes(b) + y)[0] == LayerBytes(b)[0];
    SplitEqual(LayerBytes(a), x, LayerBytes(b), y);
    if a.Some? {
      assert LayerBytes(a)[1] == LayerBytes(b)[1] && LayerBytes(a)[2] == LayerBytes(b)[2];
    }
  }

  lemma BatteryPrefix(a: Option<BatteryCondition>, x: seq<u8>, b: Option<BatteryCondition>, y: seq<u8>)
    requires BatteryBytes(a) + x == BatteryBytes(b) + y
    ensures a == b && x == y
  {
    var p, q := BatteryBytes(a), BatteryBytes(b);
    assert (p + x)[0] == p[0] && (q + y)[0] == q[0];
    SplitEqual(p, x, q, y);
    if a.Some? {
      assert p[1] == q[1] && p[2] == q[2] && p[3] == q[3] && p[4] == q[4] && p[5] == q[5] && p[6] == q[6];
    }
  }

  lemma TransportPrefix(a: Option<Transport>, x: seq<u8>, b: Option<Transport>, y: seq<u8>)
    requires TransportBytes(a) + x == TransportBytes(b) + y
    ensures a == b && x == y
  {
    var p, q := TransportBytes(a), TransportBytes(b);
    assert (p + x)[0] == p[0] && (q + y)[0] == q[0];
    SplitEqual(p, x, q, y);
    if a.Some? { assert p[1] == q[1]; }
  }

  lemma BleStatePrefix(a: Option<BleState>, x: seq<u8>, b: Option<BleState>, y: seq<u8>)
    requires BleStateBytes(a) + x == BleStateBytes(b) + y
    ensures a == b && x == y
  {
    var p, q := BleStateBytes(a), BleStateBytes(b);
    assert (p + x)[0] == p[0] && (q + y)[0] == q[0];
    SplitEqual(p, x, q, y);
    if a.Some? { assert p[1] == q[1]; }
  }

  lemma BondedPrefix(a: Option<BondedSlotCondition>, x: seq<u8>, b: Option<BondedSlotCondition>, y: seq<u8>)
    requires BondedBytes(a) + x == BondedBytes(b) + y
    ensures a == b && x == y
  {
    var p, q := BondedBytes(a), BondedBytes(b);
    assert (p + x)[0] == p[0] && (q + y)[0] == q[0];
    SplitEqual(p, x, q, y);
    if a.Some? { assert p[1] == q[1] && p[2] == q[2]; }
  }

  lemma ProfilePrefix(a: Option<u8>, x: seq<u8>, b: Option<u8>, y: seq<u8>)
    requires ProfileBytes(a) + x == ProfileBytes(b) + y
    ensures a == b && x == y
  {
    var p, q := ProfileBytes(a), ProfileBytes(b);
    SplitEqual(p, x, q, y);
    assert p[0] == q[0] && p[1] == q[1];
  }

  lemma UsbPrefix(a: Option<bool>, x: seq<u8>, b: Option<bool>, y: seq<u8>)
    requires UsbBytes(a) + x == UsbBytes(b) + y
    ensures a == b && x == y
  {
    var p, q := UsbBytes(a), UsbBytes(b);
    SplitEqual(p, x, q, y);
    assert p[0] == q[0] && p[1] == q[1];
    match (a, b) {
      case (Some(u), Some(v)) => assert u == v;
      case _ =>
    }
  }

  lemma Reassociate(a: seq<u8>, b: seq<u8>, c: seq<u8>)
    ensures a + b + c == a + (b + c)
  {
  }

  lemma ConnectionFieldsPrefix(a: ConnectionCondition, x: seq<u8>, b: ConnectionCondition, y: seq<u8>)
    requires ConnectionFieldBytes(a) + x == ConnectionFieldBytes(b) + y
    ensures a == b && x == y
  {
    var a5, b5 := UsbBytes(a.usbConnected), UsbBytes(b.usbConnected);
    var a4, b4 := BondedBytes(a.bonded) + a5, BondedBytes(b.bonded) + b5;
    var a3, b3 := BleStateBytes(a.bleState) + a4, BleStateBytes(b.bleState) + b4;
    var a2, b2 := ProfileBytes(a.profile) + a3, ProfileBytes(b.profile) + b3;
    hide TransportBytes, ProfileBytes, BleStateBytes, BondedBytes, UsbBytes;
    Reassociate(TransportBytes(a.transport), a2, x);
    Reassociate(TransportBytes(b.transport), b2, y);
    TransportPrefix(a.transport, a2 + x, b.transport, b2 + y);
    Reassociate(ProfileBytes(a.profile), a3, x);
    Reassociate(ProfileBytes(b.profile), b3, y);
    ProfilePrefix(a.profile, a3 + x, b.profile, b3 + y);
    Reassociate(BleStateBytes(a.bleState), a4, x);
    Reassociate(BleStateBytes(b.bleState), b4, y);
    BleStatePrefix(a.bleState, a4 + x, b.bleState, b4 + y);
    Reassociate(BondedBytes(a.bonded), a5, x);
    Reassociate(BondedBytes(b.bonded), b5, y);
    BondedPrefix(a.bonded, a5 + x, b.bonded, b5 + y);
    UsbPrefix(a.usbConnected, x, b.usbConnected, y);
  }

  lemma ConnectionPrefix(a: Option<ConnectionCondition>, x: seq<u8>, b: Option<ConnectionCondition>, y: seq<u8>)
    requires ConnectionBytes(a) + x == ConnectionBytes(b) + y
    ensures a == b && x == y
  {
    hide ConnectionFieldBytes;
    var p, q := ConnectionBytes(a), ConnectionBytes(b);
    assert (p + x)[0] == p[0] && (q + y)[0] == q[0];
    if a.Some? {
      var m, n := ConnectionFieldBytes(a.value), ConnectionFieldBytes(b.value);
      Reassociate([1], m, x);
      Reassociate([1], n, y);
      SplitEqual([1], m + x, [1], n + y);
      ConnectionFieldsPrefix(a.value, x, b.value, y);
    } else {
      SplitEqual(p, x, q, y);
    }
  }

  lemma OutputModePrefix(a: Option<OutputMode>, x: seq<u8>, b: Option<OutputMode>, y: seq<u8>)
    requires OutputModeBytes(a) + x == OutputModeBytes(b) + y
    ensures a == b && x == y
  {
    var p, q := OutputModeBytes(a), OutputModeBytes(b);
    assert (p + x)[0] == p[0] && (q + y)[0] == q[0];
    SplitEqual(p, x, q, y);
    if a.Some? { assert p[1] == q[1]; }
  }

  lemma EffectsGatePrefix(a: Option<EffectsCondition>, x: seq<u8>, b: Option<EffectsCondition>, y: seq<u8>)
    requires EffectsGateBytes(a) + x == EffectsGateBytes(b) + y
    ensures a == b && x == y
  {
    var p, q := EffectsGateBytes(a), EffectsGateBytes(b);
    assert (p + x)[0] == p[0] && (q + y)[0] == q[0];
    SplitEqual(p, x, q, y);
    if a.Some? { assert p[1] == q[1]; }
  }

  function CarriedGates(c: ConditionSet): ConditionSet {
    c.(layers := None, indicators := None, maintenance := None, splitTransport := None)
  }

  /** The hashed conditions are exactly the carried gates, and self-delimiting. */
  lemma ConditionsPrefix(a: ConditionSet, x: seq<u8>, b: ConditionSet, y: seq<u8>)
    requires ConditionsBytes(a) + x == ConditionsBytes(b) + y
    ensures CarriedGates(a) == CarriedGates(b) && x == y
  {
    var a5, b5 := EffectsGateBytes(a.effects), EffectsGateBytes(b.effects);
    var a4, b4 := OutputModeBytes(a.outputMode) + a5, OutputModeBytes(b.outputMode) + b5;
    var a3, b3 := ConnectionBytes(a.connection) + a4, ConnectionBytes(b.connection) + b4;
    var a2, b2 := BatteryBytes(a.battery) + a3, BatteryBytes(b.battery) + b3;
    hide LayerBytes, BatteryBytes, ConnectionBytes, OutputModeBytes, EffectsGateBytes;
    Reassociate(LayerBytes(a.layer), a2, x);
    Reassociate(LayerBytes(b.layer), b2, y);
    LayerPrefix(a.layer, a2 + x, b.layer, b2 + y);
    Reassociate(BatteryBytes(a.battery), a3, x);
    Reassociate(BatteryBytes(b.battery), b3, y);
    BatteryPrefix(a.battery, a3 + x, b.battery, b3 + y);
    Reassociate(ConnectionBytes(a.connection), a4, x);
    Reassociate(ConnectionBytes(b.connection), b4, y);
    ConnectionPrefix(a.connection, a4 + x, b.connection, b4 + y);
    Reassociate(OutputModeBytes(a.outputMode), a5, x);
    Reassociate(OutputModeBytes(b.outputMode), b5, y);
    OutputModePrefix(a.outputMode, a5 + x, b.outputMode, b5 + y);
    EffectsGatePrefix(a.effects, x, b.effects, y);
  }

  lemma ConditionalRecordPrefix(a: ConditionalCell, x: seq<u8>, b: ConditionalCell, y: seq<u8>)
    requires ConditionalRecord(a) + x == ConditionalRecord(b) + y
    ensures CarriedCell(a) == CarriedCell(b) && x == y
  {
    var p, q := EffectBytes(a.effect), EffectBytes(b.effect);
    var m, n := ConditionsBytes(a.conditions), ConditionsBytes(b.conditions);
    hide ConditionsBytes, EffectBytes, Bytes16Of;
    Reassociate(Bytes16Of(a.slot), m + p, x);
    Reassociate(Bytes16Of(b.slot), n + q, y);
    Reassociate(m, p, x);
    Reassociate(n, q, y);
    SlotPrefix(a.slot, m + (p + x), b.slot, n + (q + y));
    ConditionsPrefix(a.conditions, p + x, b.conditions, q + y);
    SplitEqual(p, x, q, y);
    EffectBytesInjective(a.effect, b.effect);
  }

  lemma SlotPrefix(a: u16, x: seq<u8>, b: u16, y: seq<u8>)
    requires Bytes16Of(a) + x == Bytes16Of(b) + y
    ensures a == b && x == y
  {
    SplitEqual(Bytes16Of(a), x, Bytes16Of(b), y);
    Bytes16Injective(a, b);
  }

  lemma {:induction false} ConditionalRecordsInjective(a: seq<ConditionalCell>, b: seq<ConditionalCell>)
    requires ConditionalRecords(a) == ConditionalRecords(b)
    ensures CarriedCells(a) == CarriedCells(b)
  {
    if a != [] && b != [] {
      ConditionalRecordPrefix(a[0], ConditionalRecords(a[1..]), b[0], ConditionalRecords(b[1..]));
      ConditionalRecordsInjective(a[1..], b[1..]);
      CarriedCellsCons(a);
      CarriedCellsCons(b);
    } else if a != [] || b != [] {
      RecordNotEmpty(if a != [] then a else b);
    }
  }

  lemma CarriedCellsCons(a: seq<ConditionalCell>)
    requires a != []
    ensures CarriedCells(a) == [CarriedCell(a[0])] + CarriedCells(a[1..])
  {
  }

  lemma RecordNotEmpty(a: seq<ConditionalCell>)
    requires a != []
    ensures ConditionalRecords(a) != []
  {
  }

  lemma {:induction false} ConditionalRecordsCarried(a: seq<ConditionalCell>)
    ensures ConditionalRecords(CarriedCells(a)) == ConditionalRecords(a)
  {
    if a != [] {
      CarriedCellsCons(a);
      ConditionalRecordsCarried(a[1..]);
      assert CarriedCells(a)[1..] == CarriedCells(a[1..]);
      assert ConditionalRecord(CarriedCell(a[0])) == ConditionalRecord(a[0]);
    }
  }

  /** The conditional digest input is an injective function of the ordered
      right-half list, less the gates no packet carries: two tables that differ
      only in those gates hash alike. */
  lemma CanonicalConditional(a: seq<ConditionalCell>, b: seq<ConditionalCell>)
    ensures ConditionalStream(a) == ConditionalStream(b)
            <==> CarriedCells(RightConditional(a)) == CarriedCells(RightConditional(b))
  {
    var x, y := RightConditional(a), RightConditional(b);
    if ConditionalStream(a) == ConditionalStream(b) {
      SplitEqual(Count16(|x|), ConditionalRecords(x), Count16(|y|), ConditionalRecords(y));
      ConditionalRecordsInjective(x, y);
    }
    if CarriedCells(x) == CarriedCells(y) {
      ConditionalRecordsCarried(x);
      ConditionalRecordsCarried(y);
    }
  }

  // ---- The hash, byte by byte ----

  function Doubled(v: nat, n: nat): nat { if n == 0 then v else 2 * Doubled(v, n - 1) }

  lemma {:induction false} XorZero(a: nat)
    ensures Xor(a, 0) == a
  {
    if a > 0 { XorZero(a / 2); }
  }

  lemma Halves(q: nat, a: nat)
    ensures (2 * q + a) % 2 == a % 2 && (2 * q + a) / 2 == q + a / 2
  {
  }

  lemma XorStep(a: nat, b: nat)
    ensures Xor(a, b) == (a + b) % 2 + 2 * Xor(a / 2, b / 2)
  {
  }

  lemma SameParity(a: nat, b: nat, c: nat)
    requires a % 2 == b % 2
    ensures (a + c) % 2 == (b + c) % 2
  {
  }

  lemma XorDoubled(q: nat, a: nat, b: nat)
    requires Xor(q + a / 2, b / 2) == q + Xor(a / 2, b / 2)
    ensures Xor(2 * q + a, b) == 2 * q + Xor(a, b)
  {
    hide Xor;
    Halves(q, a);
    XorStep(2 * q + a, b);
    XorStep(a, b);
    SameParity(2 * q + a, a, b);
  }

  lemma {:induction false} XorShifted(high: nat, a: nat, b: nat, n: nat)
    requires a < Doubled(1, n) && b < Doubled(1, n)
    ensures Xor(Doubled(high, n) + a, b) == Doubled(high, n) + Xor(a, b)
  {
    if n == 0 {
      XorZero(high);
    } else {
      hide Xor;
      XorShifted(high, a / 2, b / 2, n - 1);
      XorDoubled(Doubled(high, n - 1), a, b);
    }
  }

  /** A byte changes only the low byte. */
  lemma XorLowByte(high: nat, low: u8, byte: u8)
    ensures Xor(0x100 * high + low, byte) == 0x100 * high + Xor(low, byte)
  {
    hide Xor;
    XorShifted(high, low, byte, 8);
    assert Doubled(1, 8) == 0x100;
    assert Doubled(high, 1) == 2 * high && Doubled(high, 2) == 4 * high && Doubled(high, 3) == 8 * high;
    assert Doubled(high, 4) == 16 * high && Doubled(high, 5) == 32 * high && Doubled(high, 6) == 64 * high;
    assert Doubled(high, 7) == 128 * high && Doubled(high, 8) == 256 * high;
  }

  /** The hash of draft-eastlake-fnv for 32 bits: from the offset basis, every
      byte is combined with the low byte by exclusive or (bit by bit, as `XorBits`
      says), and the whole multiplied by the prime. So its own low byte depends
      on the low byte and the input alone. */
  lemma FnvByStep(bytes: seq<u8>, byte: u8)
    ensures Fnv([]) == 2166136261
    ensures var hash := Fnv(bytes);
            var mixed := hash - hash % 0x100 + Xor(hash % 0x100, byte);
            && Fnv(bytes + [byte]) == (mixed * 16777619) % 0x1_0000_0000
            && Fnv(bytes + [byte]) % 0x100 == (Xor(hash % 0x100, byte) * 0x93) % 0x100
  {
    var hash := Fnv(bytes);
    var high, low := hash / 0x100, hash % 0x100;
    FnvSnoc(bytes, byte);
    XorLowByte(high, low, byte);
    assert hash == 0x100 * high + low;
    assert FnvStep(hash, byte) == (Xor(hash, byte) * 16777619) % 0x1_0000_0000;
    hide Xor, FnvStep, Fnv;
    LowByteOfProduct(high, Xor(low, byte));
  }

  lemma LowByteOfProduct(high: nat, x: nat)
    ensures ((0x100 * high + x) * 16777619) % 0x1_0000_0000 % 0x100 == (x * 0x93) % 0x100
  {
    var product := (0x100 * high + x) * 16777619;
    assert product == x * 0x93 + 0x100 * (high * 16777619 + x * 65537);
    assert product == product % 0x1_0000_0000 + 0x100 * (0x100_0000 * (product / 0x1_0000_0000));
    SameLowByte(product, x * 0x93, high * 16777619 + x * 65537);
    SameLowByte(product, product % 0x1_0000_0000, 0x100_0000 * (product / 0x1_0000_0000));
  }

  lemma SameLowByte(a: nat, b: nat, k: nat)
    requires a == b + 0x100 * k
    ensures a % 0x100 == b % 0x100
  {
  }

  // ---- Settings ----

  /** The settings a replica is compared by. */
  predicate SameSettings(a: Snapshot, b: Snapshot) {
    && a.mutable.outputEnabled == b.mutable.outputEnabled
    && a.mutable.outputBrightness == b.mutable.outputBrightness
    && a.mutable.background.enabled == b.mutable.background.enabled
    && a.mutable.background.hue == b.mutable.background.hue
    && a.mutable.background.saturation == b.mutable.background.saturation
    && a.mutable.background.value == b.mutable.background.value
    && a.mutable.background.speed == b.mutable.background.speed
    && a.mutable.background.mode == b.mutable.background.mode
    && a.outputMode == b.outputMode && a.scenes.policy == b.scenes.policy
    && a.extension == b.extension && a.extensionLayers == b.extensionLayers
    && a.extensionParams == b.extensionParams && a.extensionOverlayParams == b.extensionOverlayParams
  }

  lemma MutableInjective(a: Snapshot, b: Snapshot)
    requires MutableBytes(a) == MutableBytes(b)
    ensures a.mutable == b.mutable && a.outputMode == b.outputMode && a.scenes.policy == b.scenes.policy
  {
    var x, y := MutableBytes(a), MutableBytes(b);
    assert x[0] == y[0] && x[1] == y[1] && x[2] == y[2] && x[3] == y[3] && x[4] == y[4];
    assert x[5] == y[5] && x[6] == y[6] && x[7] == y[7] && x[8] == y[8] && x[9] == y[9];
  }

  /** Each optional field starts with a flag that says how it goes on, so what
      follows starts at the same place. */
  lemma ExtensionPrefix(a: Option<ExtensionState>, x: seq<u8>, b: Option<ExtensionState>, y: seq<u8>)
    requires ExtensionStream(a) + x == ExtensionStream(b) + y
    ensures a == b && x == y
  {
    var p, q := ExtensionStream(a), ExtensionStream(b);
    assert p[0] == (p + x)[0] == (q + y)[0] == q[0];
    SplitEqual(p, x, q, y);
    if a.Some? { assert p[1] == q[1] && p[2] == q[2] && p[3] == q[3] && p[4] == q[4]; }
  }

  lemma LayersPrefix(a: Option<ExtensionLayers>, x: seq<u8>, b: Option<ExtensionLayers>, y: seq<u8>)
    requires LayersStream(a) + x == LayersStream(b) + y
    ensures a == b && x == y
  {
    var p, q := LayersStream(a), LayersStream(b);
    assert p[0] == (p + x)[0] == (q + y)[0] == q[0];
    SplitEqual(p, x, q, y);
    if a.Some? { assert p[1] == q[1] && p[2] == q[2]; }
  }

  lemma ParamsPrefix(a: Option<ExtensionParams>, x: seq<u8>, b: Option<ExtensionParams>, y: seq<u8>)
    requires ParamsBytes(a) + x == ParamsBytes(b) + y
    ensures a == b && x == y
  {
    var p, q := ParamsBytes(a), ParamsBytes(b);
    assert p[0] == (p + x)[0] == (q + y)[0] == q[0];
    if a.Some? {
      assert p[1] == (p + x)[1] == (q + y)[1] == q[1] && p[2] == (p + x)[2] == (q + y)[2] == q[2];
      SplitEqual(p, x, q, y);
      assert p[3..] == a.value.values && q[3..] == b.value.values;
    } else {
      SplitEqual(p, x, q, y);
    }
  }

  lemma FromTheRight(a: seq<u8>, b: seq<u8>, c: seq<u8>, d: seq<u8>, e: seq<u8>)
    ensures a + b + c + d + e == a + (b + (c + (d + (e + []))))
  {
  }

  lemma SettingsInjective(a: Snapshot, b: Snapshot)
    requires SettingsStream(a) == SettingsStream(b)
    ensures SameSettings(a, b)
  {
    assert |MutableBytes(a)| == |MutableBytes(b)|;
    hide MutableBytes, ExtensionStream, LayersStream, ParamsBytes;
    var a4, b4 := ParamsBytes(a.extensionOverlayParams) + [], ParamsBytes(b.extensionOverlayParams) + [];
    var a3, b3 := ParamsBytes(a.extensionParams) + a4, ParamsBytes(b.extensionParams) + b4;
    var a2, b2 := LayersStream(a.extensionLayers) + a3, LayersStream(b.extensionLayers) + b3;
    var a1, b1 := ExtensionStream(a.extension) + a2, ExtensionStream(b.extension) + b2;
    FromTheRight(MutableBytes(a), ExtensionStream(a.extension), LayersStream(a.extensionLayers),
                 ParamsBytes(a.extensionParams), ParamsBytes(a.extensionOverlayParams));
    FromTheRight(MutableBytes(b), ExtensionStream(b.extension), LayersStream(b.extensionLayers),
                 ParamsBytes(b.extensionParams), ParamsBytes(b.extensionOverlayParams));
    hide SettingsStream;
    SplitEqual(MutableBytes(a), a1, MutableBytes(b), b1);
    MutableInjective(a, b);
    ExtensionPrefix(a.extension, a2, b.extension, b2);
    LayersPrefix(a.extensionLayers, a3, b.extensionLayers, b3);
    ParamsPrefix(a.extensionParams, a4, b.extensionParams, b4);
    ParamsPrefix(a.extensionOverlayParams, [], b.extensionOverlayParams, []);
  }

  /** Two snapshots feed the settings hash alike exactly when they agree in every
      setting. */
  lemma CanonicalSettings(a: Snapshot, b: Snapshot)
    ensures SettingsStream(a) == SettingsStream(b) <==> SameSettings(a, b)
  {
    if SettingsStream(a) == SettingsStream(b) {
      hide SettingsStream, SameSettings;
      SettingsInjective(a, b);
    } else {
      assert SameSettings(a, b) ==> MutableBytes(a) == MutableBytes(b);
      hide MutableBytes, ExtensionStream, LayersStream, ParamsBytes;
    }
  }

  /** The digests are named after the snapshot's revision, and each is the hash of
      its own domain: no two domains feed the hash alike. */
  lemma DigestsOf(s: Snapshot)
    ensures var d := ReplicaDigests(s);
            && d.revision == s.revision && d.schema == DIGEST_SCHEMA
            && d.settings == Fnv([DIGEST_SCHEMA, 1] + SettingsStream(s))
            && d.overlay == Fnv([DIGEST_SCHEMA, 2] + OverlayStream(s.overlay))
            && d.scenes == Fnv([DIGEST_SCHEMA, 3] + ScenesStream(s.scenes.cells))
            && d.conditionalScenes == Fnv([DIGEST_SCHEMA, 4] + ConditionalStream(s.conditional))
  {
    hide Fnv, SettingsStream, OverlayStream, ScenesStream, ConditionalStream;
  }

  // ---- Digest agreement ----

  lemma {:induction false} FindInRightOverlay(cells: seq<OverlayCell>, slot: int)
    requires slot >= LEDS_PER_HALF
    ensures FindOverlay(RightOverlay(cells), slot) == FindOverlay(cells, slot)
  {
    if cells != [] {
      var init, last := cells[..|cells| - 1], cells[|cells| - 1];
      FindInRightOverlay(init, slot);
      var right := RightOverlay(cells);
      if OnRight(last.slot) {
        assert right[..|right| - 1] == RightOverlay(init);
      }
    }
  }

  lemma {:induction false} FindInRightScenes(cells: seq<SceneCell>, layer: int, slot: int)
    requires slot >= LEDS_PER_HALF
    ensures FindScene(RightScenes(cells), layer, slot) == FindScene(cells, layer, slot)
  {
    if cells != [] {
      var init, last := cells[..|cells| - 1], cells[|cells| - 1];
      FindInRightScenes(init, layer, slot);
      var right := RightScenes(cells);
      if OnRight(last.slot) {
        assert right[..|right| - 1] == RightScenes(init);
      }
    }
  }

  lemma RightOverlayStream(cells: seq<OverlayCell>)
    ensures OverlayStream(RightOverlay(cells)) == OverlayStream(cells)
  {
    FilterIdempotent(cells, OverlayOnRight);
    forall k | k >= LEDS_PER_HALF ensures FindOverlay(RightOverlay(cells), k) == FindOverlay(cells, k) {
      FindInRightOverlay(cells, k);
    }
    assert OverlayMap(RightOverlay(cells)) == OverlayMap(cells) by { hide FindOverlay; }
  }

  lemma RightScenesStream(cells: seq<SceneCell>)
    ensures ScenesStream(RightScenes(cells)) == ScenesStream(cells)
  {
    FilterIdempotent(cells, ScenesOnRight);
    forall l, k | k >= LEDS_PER_HALF ensures FindScene(RightScenes(cells), l, k) == FindScene(cells, l, k) {
      FindInRightScenes(cells, l, k);
    }
    assert SceneMap(RightScenes(cells)) == SceneMap(cells) by { hide FindScene; }
  }

  lemma ReplicaConditionalStream(cells: seq<ConditionalCell>)
    ensures ConditionalStream(CarriedCells(RightConditional(cells))) == ConditionalStream(cells)
  {
    var right := RightConditional(cells);
    var carried := CarriedCells(right);
    forall c | c in carried ensures ConditionalOnRight(c) {
      var i :| 0 <= i < |carried| && carried[i] == c;
      assert right[i] in right;
    }
    FilterAll(carried, ConditionalOnRight);
    ConditionalRecordsCarried(right);
  }

  // ---- Parity ----

  function Sum(bytes: seq<u8>): nat {
    if bytes == [] then 0 else Sum(bytes[..|bytes| - 1]) + bytes[|bytes| - 1]
  }

  lemma {:induction false} SumAppend(a: seq<u8>, b: seq<u8>)
    ensures Sum(a + b) == Sum(a) + Sum(b)
  {
    if b == [] {
      assert a + b == a;
    } else {
      var init := b[..|b| - 1];
      assert (a + b)[..|a + b| - 1] == a + init;
      SumAppend(a, init);
    }
  }

  function Bit(a: nat, k: nat): nat { if k == 0 then a % 2 else Bit(a / 2, k - 1) }

  lemma {:induction false} XorBits(a: nat, b: nat, k: nat)
    ensures Bit(Xor(a, b), k) == (Bit(a, k) + Bit(b, k)) % 2
    decreases k
  {
    if k > 0 {
      XorBits(a / 2, b / 2, k - 1);
      assert Xor(a, b) / 2 == Xor(a / 2, b / 2);
    }
  }

  lemma OddMultiple(x: nat)
    ensures (x * FNV_PRIME) % 0x1_0000_0000 % 2 == x % 2
  {
    var y := x * FNV_PRIME;
    assert y == x + 2 * (8388809 * x);
    assert y == 2 * (0x8000_0000 * (y / 0x1_0000_0000)) + y % 0x1_0000_0000;
  }

  /** Every byte flips the parity of the hash exactly when it is odd. */
  lemma StepParity(hash: u32, byte: u8)
    ensures FnvStep(hash, byte) % 2 == (hash + byte) % 2
  {
    hide Xor;
    XorBits(hash, byte, 0);
    OddMultiple(Xor(hash, byte));
  }

  /** Offset and prime are odd, so the parity of the hash is that of its input. */
  lemma {:induction false} FnvParity(bytes: seq<u8>)
    ensures Fnv(bytes) % 2 == (1 + Sum(bytes)) % 2
  {
    hide FnvStep;
    if bytes != [] {
      var init, last := bytes[..|bytes| - 1], bytes[|bytes| - 1];
      assert Fnv(bytes) == FnvStep(Fnv(init), last) && Sum(bytes) == Sum(init) + last;
      hide Fnv, Sum;
      FnvParity(init);
      StepParity(Fnv(init), last);
      SameParity(Fnv(init), 1 + Sum(init), last);
    }
  }

  lemma DomainParity(domain: u8, stream: seq<u8>)
    ensures DomainHash(domain, stream) % 2 == (1 + Sum([DIGEST_SCHEMA, domain]) + Sum(stream)) % 2
  {
    SumAppend([DIGEST_SCHEMA, domain], stream);
    FnvParity([DIGEST_SCHEMA, domain] + stream);
    hide Sum, Fnv;
  }

  /** A replica always states its extension layers. A sender that does not
      hashes one zero where its replica hashes a one and two zeros. */
  lemma SettingsSum(s: Snapshot)
    ensures s.extensionLayers.Some? ==> SettingsStream(Replica(s)) == SettingsStream(s)
    ensures s.extensionLayers.None? ==> Sum(SettingsStream(Replica(s))) == Sum(SettingsStream(s)) + 1
  {
    var r := Replica(s);
    assert MutableBytes(r) == MutableBytes(s);
    hide MutableBytes, ParamsBytes, ExtensionStream;
    if s.extensionLayers.None? {
      var before := MutableBytes(s) + ExtensionStream(s.extension);
      SumAppend(before, [0]);
      SumAppend(before, [1, 0, 0]);
      assert Sum([0]) == 0 && Sum([1, 0, 0]) == 1 by {
        assert [1, 0, 0][..2] == [1, 0] && [1, 0][..1] == [1];
      }
      StreamSum(before, [0], ParamsBytes(s.extensionParams), ParamsBytes(s.extensionOverlayParams));
      StreamSum(before, [1, 0, 0], ParamsBytes(s.extensionParams), ParamsBytes(s.extensionOverlayParams));
      hide Sum;
    }
  }

  lemma StreamSum(a: seq<u8>, b: seq<u8>, c: seq<u8>, d: seq<u8>)
    ensures Sum(a + b + c + d) == Sum(a) + Sum(b) + Sum(c) + Sum(d)
  {
    SumAppend(a, b);
    SumAppend(a + b, c);
    SumAppend(a + b + c, d);
  }

  /** The settings digest survives replication exactly when the sender states
      its extension layers; otherwise the two digests differ in parity. */
  lemma ReplicaSettingsDigest(s: Snapshot)
    ensures DomainHash(1, SettingsStream(Replica(s))) == DomainHash(1, SettingsStream(s))
            <==> s.extensionLayers.Some?
  {
    hide DomainHash, SettingsStream, Sum, Replica;
    SettingsSum(s);
    DomainParity(1, SettingsStream(Replica(s)));
    DomainParity(1, SettingsStream(s));
  }

  lemma ReplicaTables(s: Snapshot)
    ensures OverlayStream(Replica(s).overlay) == OverlayStream(s.overlay)
    ensures ScenesStream(Replica(s).scenes.cells) == ScenesStream(s.scenes.cells)
    ensures ConditionalStream(Replica(s).conditional) == ConditionalStream(s.conditional)
  {
    RightOverlayStream(s.overlay);
    RightScenesStream(s.scenes.cells);
    ReplicaConditionalStream(s.conditional);
    hide SettingsStream, OverlayStream, ScenesStream, ConditionalStream;
  }

  /** Digest agreement: what the peripheral staged hashes to what the central
      announced exactly when the sender states its extension layers, whatever
      the peripheral's own context adds to it. */
  lemma DigestAgreement(s: Snapshot, context: LightingContext)
    ensures ReplicaDigests(Replica(s).(context := context)) == ReplicaDigests(s) <==> s.extensionLayers.Some?
  {
    DigestsSeen(s, Replica(s).(context := context));
    assert Replica(s).(context := context).conditional == Replica(s).conditional;
    ReplicaTables(s);
    hide ReplicaDigests, ConditionalStream, DomainHash, Replica;
  }

  /** What the digests of a replica that may have lost its conditional table or
      part of it say: they match exactly when the sender states its extension
      layers and the conditional digests match. */
  lemma DigestsSeen(s: Snapshot, held: Snapshot)
    requires held == Replica(s).(context := held.context, conditional := held.conditional)
    ensures ReplicaDigests(held) == ReplicaDigests(s)
            <==> s.extensionLayers.Some? && ConditionalDigest(held) == ConditionalDigest(s)
  {
    ReplicaSettingsDigest(s);
    ReplicaTables(s);
    assert SettingsStream(held) == SettingsStream(Replica(s));
    hide SettingsStream, OverlayStream, ScenesStream, ConditionalStream, DomainHash;
  }

  function ConditionalDigest(s: Snapshot): u32 { DomainHash(4, ConditionalStream(s.conditional)) }
}

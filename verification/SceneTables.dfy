/** The two tables of a whole configuration: standalone cells merged with those
    the layers declare. */
module SceneTables {
  import opened Prelude
  import opened Scenes

  // ---- The standalone table ----

  predicate SameKey(a: SceneCell, b: SceneCell) { a.layer == b.layer && a.target == b.target }

  /** Order of the table: by layer, then target. What orders cells of one key
      never matters, since no two survive. */
  predicate Less(a: SceneCell, b: SceneCell) { a.layer < b.layer || (a.layer == b.layer && a.target < b.target) }

  predicate UniqueKeys(s: seq<SceneCell>) { forall i, k :: 0 <= i < k < |s| ==> !SameKey(s[i], s[k]) }

  predicate InOrder(s: seq<SceneCell>) { forall i, k :: 0 <= i < k < |s| ==> !Less(s[k], s[i]) }

  /** Timing options as each effect wants them. */
  predicate ValidStyle(s: Style) {
    match s.effect
    case SolidEffect => s.periodMs.None? && s.phaseMs.None? && s.duty.None? && s.stepMs.None?
    case BlinkEffect => s.periodMs.UnwrapOr(0) != 0 && s.duty.UnwrapOr(101) <= 100 && s.stepMs.None?
    case BreatheEffect => s.periodMs.UnwrapOr(0) >= 2 && s.stepMs.UnwrapOr(0) != 0 && s.duty.None?
  }

  /** Conditional cells ask less of the timing options they do not use. */
  predicate ValidConditionalStyle(s: Style) {
    match s.effect
    case SolidEffect => s.periodMs.None? && s.phaseMs.None? && s.duty.None? && s.stepMs.None?
    case BlinkEffect => s.periodMs.UnwrapOr(0) != 0 && s.duty.UnwrapOr(101) <= 100
    case BreatheEffect => s.periodMs.UnwrapOr(0) != 0 && s.stepMs.UnwrapOr(0) != 0
  }

  predicate AllValid(s: seq<SceneCell>) { forall c :: c in s ==> ValidStyle(c.look.style) }

  predicate AllValidConditionals(s: seq<ConditionalCell>) { forall c :: c in s ==> ValidConditionalStyle(c.look.style) }

  // ---- On the wire ----

  datatype WireEffect =
    | SolidWire(color: u32)
    | BlinkWire(color: u32, periodMs: u32, phaseMs: u32, duty: u8)
    | BreatheWire(color: u32, periodMs: u32, phaseMs: u32, stepMs: u16)
  {
    /** Ranges asked of the scene table. */
    predicate InRange() {
      match this
      case SolidWire(_) => true
      case BlinkWire(_, period, _, duty) => 0 < period && duty <= 100
      case BreatheWire(_, period, _, step) => 2 <= period && 0 < step
    }
  }

  function ToWire(l: Look): Option<WireEffect> {
    var s := l.style;
    match s.effect
    case SolidEffect => Some(SolidWire(l.color))
    case BlinkEffect =>
      if s.periodMs.None? || s.duty.None? then None
      else Some(BlinkWire(l.color, s.periodMs.value, s.phaseMs.UnwrapOr(0), s.duty.value))
    case BreatheEffect =>
      if s.periodMs.None? || s.stepMs.None? then None
      else Some(BreatheWire(l.color, s.periodMs.value, s.phaseMs.UnwrapOr(0), s.stepMs.value))
  }

  function FromWire(w: WireEffect): Look {
    match w
    case SolidWire(color) => Look(color, PlainStyle)
    case BlinkWire(color, period, phase, duty) =>
      Look(color, Style(BlinkEffect, Some(period), Some(phase), Some(duty), None))
    case BreatheWire(color, period, phase, step) =>
      Look(color, Style(BreatheEffect, Some(period), Some(phase), None, Some(step)))
  }

  /** A look with the phase it has by default. */
  function Phased(l: Look): Look {
    if l.style.effect.SolidEffect? then l
    else l.(style := l.style.(phaseMs := Some(l.style.phaseMs.UnwrapOr(0))))
  }

  lemma WireIsRead(w: WireEffect)
    ensures ToWire(FromWire(w)) == Some(w) && Phased(FromWire(w)) == FromWire(w)
  {
  }

  /** A scene cell is valid exactly when its effect reaches the device within
      range and reads back as it was written, but for the default phase. */
  lemma ValidStyleExactly(l: Look)
    ensures ValidStyle(l.style) <==>
            ToWire(l).Some? && ToWire(l).value.InRange() && FromWire(ToWire(l).value) == Phased(l)
  {
  }

  /** A conditional cell that is valid reaches the device, but reads back as it
      was written only without the options its effect does not use: a step on a
      blink and a duty on a breathe are accepted and lost. And a breathe of
      period 1 is in range here alone. */
  lemma ConditionalStyleExactly(l: Look)
    requires ValidConditionalStyle(l.style)
    ensures ToWire(l).Some? && FromWire(ToWire(l).value).style.effect == l.style.effect
    ensures FromWire(ToWire(l).value) == Phased(l) <==>
            (l.style.effect.BlinkEffect? ==> l.style.stepMs.None?)
            && (l.style.effect.BreatheEffect? ==> l.style.duty.None?)
    ensures ToWire(l).value.InRange() <==> !(l.style.effect.BreatheEffect? && l.style.periodMs == Some(1))
  {
  }

  /** Every scene cell reaches the device within range and reads back as it
      was written; every conditional cell reaches it with its own effect. */
  predicate Encodable(tables: Tables) {
    && (forall c :: c in tables.scenes ==>
         && ToWire(c.look).Some? && ToWire(c.look).value.InRange()
         && FromWire(ToWire(c.look).value) == Phased(c.look))
    && (forall c :: c in tables.conditionals ==>
         && ToWire(c.look).Some?
         && FromWire(ToWire(c.look).value).style.effect == c.look.style.effect)
  }

  lemma ValidTablesEncode(tables: Tables)
    requires AllValid(tables.scenes) && AllValidConditionals(tables.conditionals)
    ensures Encodable(tables)
  {
    hide ToWire, FromWire, Phased, ValidStyle, ValidConditionalStyle;
    forall c | c in tables.scenes
      ensures ToWire(c.look).Some? && ToWire(c.look).value.InRange()
              && FromWire(ToWire(c.look).value) == Phased(c.look)
    {
      ValidStyleExactly(c.look);
    }
    forall c | c in tables.conditionals
      ensures ToWire(c.look).Some? && FromWire(ToWire(c.look).value).style.effect == c.look.style.effect
    {
      ConditionalStyleExactly(c.look);
    }
  }

  lemma InsertedInOrder(s: seq<SceneCell>, c: SceneCell, at: nat)
    requires InOrder(s) && at <= |s|
    requires forall i :: 0 <= i < at ==> !Less(c, s[i])
    requires forall i :: at <= i < |s| ==> !Less(s[i], c)
    ensures InOrder(Inserted(s, c, at))
  {
    hide Inserted, Less;
  }

  lemma InsertedUnique(s: seq<SceneCell>, c: SceneCell, at: nat)
    requires at <= |s|
    ensures UniqueKeys(Inserted(s, c, at)) <==> UniqueKeys(s) && forall i :: 0 <= i < |s| ==> !SameKey(s[i], c)
  {
    var r := Inserted(s, c, at);
    hide Inserted;
    if UniqueKeys(r) {
      forall i, k | 0 <= i < k < |s| ensures !SameKey(s[i], s[k]) {
        assert s[i] == r[if i < at then i else i + 1] && s[k] == r[if k < at then k else k + 1];
      }
      forall i | 0 <= i < |s| ensures !SameKey(s[i], c) {
        assert s[i] == r[if i < at then i else i + 1] && c == r[at];
      }
    }
  }

  /** Where a cell goes: past everything that is not greater. */
  method Position(s: seq<SceneCell>, c: SceneCell) returns (at: nat)
    requires InOrder(s)
    ensures at <= |s|
    ensures forall i :: 0 <= i < at ==> !Less(c, s[i])
    ensures forall i :: at <= i < |s| ==> !Less(s[i], c)
  {
    at := |s|;
    while at > 0 && Less(c, s[at - 1])
      invariant at <= |s| && forall i :: at <= i < |s| ==> !Less(s[i], c)
    {
      at := at - 1;
    }
    forall i | 0 <= i < at ensures !Less(c, s[i]) {
      assert i < at - 1 ==> !Less(s[at - 1], s[i]);
    }
  }

  lemma SnocUnique(s: seq<SceneCell>, c: SceneCell)
    ensures UniqueKeys(s + [c]) <==> UniqueKeys(s) && forall i :: 0 <= i < |s| ==> !SameKey(s[i], c)
  {
    assert Inserted(s, c, |s|) == s + [c];
    InsertedUnique(s, c, |s|);
  }

  lemma KeyAmong(a: seq<SceneCell>, b: seq<SceneCell>, c: SceneCell)
    requires forall x :: x in a <==> x in b
    ensures (forall i :: 0 <= i < |a| ==> !SameKey(a[i], c)) <==> (forall i :: 0 <= i < |b| ==> !SameKey(b[i], c))
  {
    if forall i :: 0 <= i < |a| ==> !SameKey(a[i], c) {
      forall i | 0 <= i < |b| ensures !SameKey(b[i], c) { assert b[i] in a; }
    }
    if forall i :: 0 <= i < |b| ==> !SameKey(b[i], c) {
      forall i | 0 <= i < |a| ensures !SameKey(a[i], c) { assert a[i] in b; }
    }
  }

  method Sort(s: seq<SceneCell>) returns (r: seq<SceneCell>)
    ensures InOrder(r) && |r| == |s| && (forall x :: x in r <==> x in s)
    ensures UniqueKeys(r) <==> UniqueKeys(s)
  {
    r := [];
    for n := 0 to |s|
      invariant InOrder(r) && |r| == n && (forall x :: x in r <==> x in s[..n])
      invariant UniqueKeys(r) <==> UniqueKeys(s[..n])
    {
      hide InOrder, UniqueKeys, Inserted;
      assert s[..n + 1] == s[..n] + [s[n]];
      var at := Position(r, s[n]);
      InsertedMembers(r, s[n], at);
      InsertedInOrder(r, s[n], at);
      InsertedUnique(r, s[n], at);
      SnocUnique(s[..n], s[n]);
      KeyAmong(r, s[..n], s[n]);
      r := Inserted(r, s[n], at);
    }
    assert s[..|s|] == s;
  }

  /** Looking at neighbours is enough once the table is sorted. */
  method FindDuplicate(s: seq<SceneCell>) returns (found: bool)
    requires InOrder(s)
    ensures found <==> !UniqueKeys(s)
  {
    var n := 1;
    while n < |s|
      invariant 1 <= n && forall k :: 0 <= k < n - 1 && k + 1 < |s| ==> !SameKey(s[k], s[k + 1])
    {
      if SameKey(s[n - 1], s[n]) { return true; }
      n := n + 1;
    }
    found := false;
    forall i, k | 0 <= i < k < |s| ensures !SameKey(s[i], s[k]) {
      assert !SameKey(s[i], s[i + 1]) && !Less(s[i + 1], s[i]);
      assert i + 1 < k ==> !Less(s[k], s[i + 1]);
    }
  }

  // ---- Merging ----

  /** A layer's cell replaces whatever the key held. */
  function Replaced(s: seq<SceneCell>, c: SceneCell): seq<SceneCell> {
    Filter(s, held => !SameKey(held, c)) + [c]
  }

  function Merged(s: seq<SceneCell>, more: seq<SceneCell>): seq<SceneCell> {
    if more == [] then s else Replaced(Merged(s, more[..|more| - 1]), more[|more| - 1])
  }

  lemma {:induction false} FilterUnique(s: seq<SceneCell>, c: SceneCell)
    requires UniqueKeys(s)
    ensures UniqueKeys(Filter(s, held => !SameKey(held, c)))
  {
    if s != [] {
      var init, last := s[..|s| - 1], s[|s| - 1];
      var r := Filter(init, held => !SameKey(held, c));
      FilterUnique(init, c);
      SnocUnique(r, last);
      forall i | 0 <= i < |r| ensures !SameKey(r[i], last) {
        assert r[i] in init;
        var k :| 0 <= k < |init| && init[k] == r[i];
        assert !SameKey(s[k], s[|s| - 1]);
      }
    }
  }

  lemma {:induction false} FilterShows(s: seq<SceneCell>, c: SceneCell, layer: u8, target: Target)
    ensures LastScene(Filter(s, held => !SameKey(held, c)), layer, target) ==
            if c.layer == layer && c.target == target then None else LastScene(s, layer, target)
  {
    if s != [] {
      var init := s[..|s| - 1];
      FilterShows(init, c, layer, target);
      var r := Filter(s, held => !SameKey(held, c));
      if !SameKey(s[|s| - 1], c) {
        assert r[..|r| - 1] == Filter(init, held => !SameKey(held, c));
      }
    }
  }

  lemma {:induction false} MergedValid(s: seq<SceneCell>, more: seq<SceneCell>)
    requires AllValid(s) && AllValid(more)
    ensures AllValid(Merged(s, more))
  {
    hide ValidStyle;
    if more != [] {
      assert forall c :: c in more[..|more| - 1] ==> c in more;
      assert more[|more| - 1] in more;
      MergedValid(s, more[..|more| - 1]);
    }
  }

  lemma {:induction false} MergedUnique(s: seq<SceneCell>, more: seq<SceneCell>)
    requires UniqueKeys(s)
    ensures UniqueKeys(Merged(s, more))
  {
    if more != [] {
      var before, c := Merged(s, more[..|more| - 1]), more[|more| - 1];
      MergedUnique(s, more[..|more| - 1]);
      FilterUnique(before, c);
      var r := Filter(before, held => !SameKey(held, c));
      SnocUnique(r, c);
      forall i | 0 <= i < |r| ensures !SameKey(r[i], c) { assert r[i] in r; }
    }
  }

  /** The merge shows the layer's last cell of a key where it has one. */
  lemma {:induction false} MergedShows(s: seq<SceneCell>, more: seq<SceneCell>, layer: u8, target: Target)
    ensures LastScene(Merged(s, more), layer, target) ==
            Over(LastScene(more, layer, target), LastScene(s, layer, target))
  {
    if more != [] {
      var before, c := Merged(s, more[..|more| - 1]), more[|more| - 1];
      MergedShows(s, more[..|more| - 1], layer, target);
      FilterShows(before, c, layer, target);
      var r := Filter(before, held => !SameKey(held, c));
      assert (r + [c])[..|r|] == r;
    }
  }

  lemma {:induction false} KeyShows(s: seq<SceneCell>, i: nat)
    requires UniqueKeys(s) && i < |s|
    ensures LastScene(s, s[i].layer, s[i].target) == Some(s[i].look)
  {
    if i < |s| - 1 {
      assert !SameKey(s[i], s[|s| - 1]);
      assert s[..|s| - 1][i] == s[i];
      KeyShows(s[..|s| - 1], i);
    }
  }

  lemma {:induction false} SceneWitness(s: seq<SceneCell>, layer: u8, target: Target) returns (i: nat)
    requires LastScene(s, layer, target).Some?
    ensures i < |s| && s[i].layer == layer && s[i].target == target
  {
    var last := s[|s| - 1];
    if last.layer == layer && last.target == target {
      i := |s| - 1;
    } else {
      i := SceneWitness(s[..|s| - 1], layer, target);
    }
  }

  /** With unique keys, the order of a table does not show. */
  lemma OrderDoesNotShow(a: seq<SceneCell>, b: seq<SceneCell>, layer: u8, target: Target)
    requires UniqueKeys(a) && UniqueKeys(b) && forall x :: x in a <==> x in b
    ensures LastScene(a, layer, target) == LastScene(b, layer, target)
  {
    hide LastScene, UniqueKeys;
    if LastScene(a, layer, target).Some? {
      var i := SceneWitness(a, layer, target);
      assert a[i] in b;
      var k :| 0 <= k < |b| && b[k] == a[i];
      KeyShows(a, i);
      KeyShows(b, k);
    } else if LastScene(b, layer, target).Some? {
      var i := SceneWitness(b, layer, target);
      assert b[i] in a;
      var k :| 0 <= k < |a| && a[k] == b[i];
      KeyShows(a, k);
    }
  }

  ghost predicate MergesTo(scenes: seq<SceneCell>, standalone: seq<SceneCell>, layerScenes: seq<SceneCell>) {
    forall layer, target ::
      LastScene(scenes, layer, target) == Over(LastScene(layerScenes, layer, target), LastScene(standalone, layer,
        target))
  }

  method Retain(s: seq<SceneCell>, c: SceneCell) returns (r: seq<SceneCell>)
    ensures r == Filter(s, held => !SameKey(held, c))
  {
    r := [];
    for n := 0 to |s|
      invariant r == Filter(s[..n], held => !SameKey(held, c))
    {
      assert s[..n + 1][..n] == s[..n];
      if s[n].layer != c.layer || s[n].target != c.target { r := r + [s[n]]; }
    }
    assert s[..|s|] == s;
  }

  /** The standalone scenes, sorted and free of duplicates, with the layers'
      cells over them. */
  method MergeScenes(standalone: seq<SceneCell>, layerScenes: seq<SceneCell>) returns (r: Result<seq<SceneCell>,
                     ConfigError>)
    ensures r.Ok? <==> AllValid(standalone) && UniqueKeys(standalone) && AllValid(layerScenes)
    ensures r.Ok? ==> InOrder(r.value) && UniqueKeys(r.value) && AllValid(r.value)
    ensures r.Ok? ==> MergesTo(r.value, standalone, layerScenes)
  {
    hide InOrder, UniqueKeys, Filter, LastScene, ValidStyle;
    for n := 0 to |standalone|
      invariant forall k :: 0 <= k < n ==> ValidStyle(standalone[k].look.style)
    {
      if !ValidStyle(standalone[n].look.style) {
        assert standalone[n] in standalone;
        return Err(InvalidScene);
      }
    }
    var sorted := Sort(standalone);
    var duplicate := FindDuplicate(sorted);
    if duplicate { return Err(DuplicateScene); }
    var scenes := sorted;
    for n := 0 to |layerScenes|
      invariant forall k :: 0 <= k < n ==> ValidStyle(layerScenes[k].look.style)
      invariant scenes == Merged(sorted, layerScenes[..n])
    {
      assert layerScenes[..n + 1][..n] == layerScenes[..n];
      if !ValidStyle(layerScenes[n].look.style) {
        assert layerScenes[n] in layerScenes;
        return Err(InvalidScene);
      }
      scenes := Retain(scenes, layerScenes[n]);
      scenes := scenes + [layerScenes[n]];
    }
    assert layerScenes[..|layerScenes|] == layerScenes;
    MergedUnique(sorted, layerScenes);
    MergedValid(sorted, layerScenes);
    var final := Sort(scenes);
    forall layer, target
      ensures LastScene(final, layer, target)
              == Over(LastScene(layerScenes, layer, target), LastScene(standalone, layer, target))
    {
      OrderDoesNotShow(final, scenes, layer, target);
      MergedShows(sorted, layerScenes, layer, target);
      OrderDoesNotShow(sorted, standalone, layer, target);
    }
    r := Ok(final);
  }

  // ---- Whole configurations ----

  predicate AllLayersLower(layers: seq<Layer>) { forall l :: l in layers ==> AllLower(EntriesOf(l)) }

  function KeymapScenes(layers: seq<Layer>): seq<SceneCell>
    requires AllLayersLower(layers) && |layers| <= 256
  {
    if layers == [] then []
    else KeymapScenes(layers[..|layers| - 1]) + AllScenes(EntriesOf(layers[|layers| - 1]), |layers| - 1)
  }

  function KeymapConditionals(layers: seq<Layer>): seq<ConditionalCell>
    requires AllLayersLower(layers) && |layers| <= 256
  {
    if layers == [] then []
    else KeymapConditionals(layers[..|layers| - 1]) + AllConditionals(EntriesOf(layers[|layers| - 1]), |layers| - 1)
  }

  /** The last active layer with an entry whose conditional arm holds, and in it
      the last such entry's first such arm. */
  function KeymapArm(layers: seq<Layer>, env: Environment, target: Target): Option<Look>
    requires AllLayersLower(layers) && |layers| <= 256
  {
    if layers == [] then None
    else
      var here := if |layers| - 1 in env.active then LayerArm(EntriesOf(layers[|layers| - 1]), env, target) else None;
      Over(here, KeymapArm(layers[..|layers| - 1], env, target))
  }

  function LayerFinalAt(layers: seq<Layer>, layer: u8, target: Target): Option<Look>
    requires AllLayersLower(layers)
  {
    if layer < |layers| then LayerFinal(EntriesOf(layers[layer]), target) else None
  }

  /** What a configuration asks a target to show: the keymap's conditional arms,
      then the standalone rules, then the layer's unconditional arms, then the
      standalone scenes. */
  function Meaning(layers: seq<Layer>, scenes: seq<SceneCell>, conditionals: seq<ConditionalCell>,
                   env: Environment, layer: u8, target: Target): Option<Look>
    requires AllLayersLower(layers) && |layers| <= 256
  {
    Over(KeymapArm(layers, env, target),
         Over(LastHolding(conditionals, env, target),
              Over(LayerFinalAt(layers, layer, target), LastScene(scenes, layer, target))))
  }

  lemma InitLowers(layers: seq<Layer>)
    requires AllLayersLower(layers) && layers != []
    ensures AllLayersLower(layers[..|layers| - 1]) && AllLower(EntriesOf(layers[|layers| - 1]))
  {
    hide AllLower, EntriesOf;
    assert layers[|layers| - 1] in layers && forall l :: l in layers[..|layers| - 1] ==> l in layers;
  }

  lemma {:induction false} KeymapConditionalsShow(layers: seq<Layer>, env: Environment, target: Target)
    requires AllLayersLower(layers) && |layers| <= 256
    ensures LastHolding(KeymapConditionals(layers), env, target) == KeymapArm(layers, env, target)
  {
    if layers == [] {
      NothingHolds(env, target);
    } else {
      InitLowers(layers);
      var init, entries := layers[..|layers| - 1], EntriesOf(layers[|layers| - 1]);
      hide AllLayersLower, LastHolding, LayerArm, AllConditionals, AllLower, EntriesOf;
      KeymapConditionalsShow(init, env, target);
      LayerConditionalsShow(entries, |layers| - 1, env, target);
      LastHoldingAppend(KeymapConditionals(init), AllConditionals(entries, |layers| - 1), env, target);
    }
  }

  lemma {:induction false} KeymapScenesShow(layers: seq<Layer>, layer: u8, target: Target)
    requires AllLayersLower(layers) && |layers| <= 256
    ensures LastScene(KeymapScenes(layers), layer, target) == LayerFinalAt(layers, layer, target)
  {
    if layers == [] {
      NoScene(layer, target);
    } else {
      InitLowers(layers);
      var init, entries := layers[..|layers| - 1], EntriesOf(layers[|layers| - 1]);
      hide AllLayersLower, LastScene, LayerFinal, AllScenes, AllLower, EntriesOf;
      KeymapScenesShow(init, layer, target);
      LayerScenesShow(entries, |layers| - 1, layer, target);
      LastSceneAppend(KeymapScenes(init), AllScenes(entries, |layers| - 1), layer, target);
    }
  }

  /** Tables as the builder leaves them. */
  ghost predicate IsLowering(tables: Tables, layers: seq<Layer>, scenes: seq<SceneCell>,
                             conditionals: seq<ConditionalCell>)
    requires AllLayersLower(layers) && |layers| <= 256
  {
    && InOrder(tables.scenes) && UniqueKeys(tables.scenes)
    && MergesTo(tables.scenes, scenes, KeymapScenes(layers))
    && tables.conditionals == conditionals + KeymapConditionals(layers)
  }

  /** Lowering preserves meaning, in every environment, for every target and
      effective layer. */
  lemma LoweringPreservesMeaning(tables: Tables, layers: seq<Layer>, scenes: seq<SceneCell>,
                                 conditionals: seq<ConditionalCell>, env: Environment, layer: u8, target: Target)
    requires AllLayersLower(layers) && |layers| <= 256 && IsLowering(tables, layers, scenes, conditionals)
    ensures Shown(tables, env, layer, target) == Meaning(layers, scenes, conditionals, env, layer, target)
  {
    KeymapConditionalsShow(layers, env, target);
    KeymapScenesShow(layers, layer, target);
    LastHoldingAppend(conditionals, KeymapConditionals(layers), env, target);
    hide LastHolding, LastScene, KeymapArm, KeymapScenes, KeymapConditionals, LayerFinalAt, InOrder, UniqueKeys;
  }

  datatype BuildError = TooManyLayers | NoLightingSection | Config(error: ConfigError)

  /** The lighting section's own cells. */
  datatype Lighting = Lighting(scenes: seq<SceneCell>, conditionals: seq<ConditionalCell>)

  predicate Buildable(layers: seq<Layer>, lighting: Lighting)
    requires AllLayersLower(layers) && |layers| <= 256
  {
    && AllValid(lighting.scenes) && UniqueKeys(lighting.scenes) && AllValid(KeymapScenes(layers))
    && AllValidConditionals(lighting.conditionals) && AllValidConditionals(KeymapConditionals(layers))
  }

  /** What a configuration needs to have tables: layers that lower, and a
      lighting section that is valid with them, which may be missing only if no
      layer declares lighting. */
  predicate Builds(layers: seq<Layer>, lighting: Option<Lighting>) {
    && |layers| <= 256 && AllLayersLower(layers)
    && match lighting
       case None => KeymapScenes(layers) == [] && KeymapConditionals(layers) == []
       case Some(own) => Buildable(layers, own)
  }

  method CheckConditionals(cells: seq<ConditionalCell>) returns (ok: bool)
    ensures ok <==> AllValidConditionals(cells)
  {
    for n := 0 to |cells|
      invariant forall k :: 0 <= k < n ==> ValidConditionalStyle(cells[k].look.style)
    {
      if !ValidConditionalStyle(cells[n].look.style) {
        assert cells[n] in cells;
        return false;
      }
    }
    ok := true;
  }

  /** All layers in order, then the lighting section around what they declare. */
  method BuildTables(layers: seq<Layer>, lighting: Option<Lighting>) returns (r: Result<Option<Tables>, BuildError>)
    ensures r.Ok? <==> Builds(layers, lighting)
    ensures r.Ok? ==> (r.value.Some? <==> lighting.Some?)
    ensures r.Ok? && lighting.Some? ==>
      IsLowering(r.value.value, layers, lighting.value.scenes, lighting.value.conditionals)
    ensures r.Ok? && lighting.Some? ==> Encodable(r.value.value)
  {
    hide AllLower, EntriesOf, AllScenes, AllConditionals, MergesTo, InOrder, UniqueKeys, AllValid,
         Encodable;
    var scenes: seq<SceneCell>, conditionals: seq<ConditionalCell> := [], [];
    for n := 0 to |layers|
      invariant n <= 256 && AllLayersLower(layers[..n])
      invariant scenes == KeymapScenes(layers[..n]) && conditionals == KeymapConditionals(layers[..n])
    {
      assert layers[..n + 1][..n] == layers[..n] && layers[..n + 1] == layers[..n] + [layers[n]];
      if n > 255 { return Err(TooManyLayers); }
      assert layers[n] in layers;
      var here := LayerScenes(layers[n], n);
      if here.Err? { return Err(Config(here.error)); }
      scenes := scenes + here.value.scenes;
      conditionals := conditionals + here.value.conditionals;
    }
    assert layers[..|layers|] == layers;
    if lighting.None? {
      if scenes != [] || conditionals != [] { return Err(NoLightingSection); }
      return Ok(None);
    }
    var own := CheckConditionals(lighting.value.conditionals);
    if !own { return Err(Config(InvalidConditional)); }
    var merged := MergeScenes(lighting.value.scenes, scenes);
    if merged.Err? { return Err(Config(merged.error)); }
    var theirs := CheckConditionals(conditionals);
    if !theirs { return Err(Config(InvalidConditional)); }
    r := Ok(Some(Tables(merged.value, lighting.value.conditionals + conditionals)));
    ValidTablesEncode(r.value.value);
  }
}

/** Layer-attached lighting: ordered arms, first match wins, lowered to the two
    tables of the device, where the last match wins. */
module Scenes {
  import opened Prelude

  /** What a selector resolves to. Two selectors with the same LED are one
      target only where the resolution says so. */
  type Target = u16

  datatype EffectKind = SolidEffect | BlinkEffect | BreatheEffect

  datatype Style = Style(effect: EffectKind, periodMs: Option<u32>, phaseMs: Option<u32>, duty: Option<u8>,
      stepMs: Option<u16>)

  datatype Look = Look(color: u32, style: Style)

  /** One gate of a rule; what it asks is the environment's to answer. */
  datatype Gate = Gate(code: nat)

  datatype Field = Layers | Battery | Output | Connection | Effects | Indicators | Maintenance | SplitTransport

  /** The gates a rule adds to its layer's own. */
  datatype Conditions = Conditions(
    layers: Option<Gate>, battery: Option<Gate>, outputMode: Option<Gate>, connection: Option<Gate>,
    effects: Option<Gate>, indicators: Option<Gate>, maintenance: Option<Gate>, splitTransport: Option<Gate>)

  const NoConditions := Conditions(None, None, None, None, None, None, None, None)

  /** One arm; `None` for a color that does not parse. */
  datatype Rule = Rule(color: Option<u32>, style: Style, when: Option<Conditions>)
  {
    /** An empty condition table names nothing: the unconditional arm. */
    function Named(): Option<Conditions> { if when == Some(NoConditions) then None else when }
  }

  /** One entry of a layer. `targets` is what its selector resolves to, `None`
      for one that does not resolve. */
  datatype Entry = Entry(targets: Option<seq<Target>>, bindsAction: bool, color: Option<Option<u32>>, style: Style,
      rules: seq<Rule>)

  datatype Layer = Layer(keys: seq<Entry>, lights: seq<Entry>)

  datatype SceneCell = SceneCell(layer: u8, target: Target, look: Look)

  datatype LayerGate = LayerGate(layer: u8, active: bool)

  datatype ConditionalCell = ConditionalCell(layer: Option<LayerGate>, conditions: Conditions, target: Target,
      look: Look)

  datatype ConfigError =
    | LightBindsAction | NamesNothing | StraySettings | UnreachableArm | UnknownTarget | BadColor
    | DuplicateScene | InvalidScene | InvalidConditional

  // ---- Entries ----

  /** The arms, with the inline color as the final unconditional one. */
  function LightRules(e: Entry): seq<Rule> {
    e.rules + match e.color { case None => [] case Some(color) => [Rule(color, e.style, None)] }
  }

  const PlainStyle := Style(SolidEffect, None, None, None, None)

  predicate UnconditionalLast(rules: seq<Rule>) {
    forall k :: 0 <= k < |rules| - 1 ==> rules[k].Named().Some?
  }

  function Fault(e: Entry, lightingOnly: bool): Option<ConfigError> {
    if lightingOnly && e.bindsAction then Some(LightBindsAction)
    else if !e.bindsAction && LightRules(e) == [] then Some(NamesNothing)
    else if e.color.None? && e.style != PlainStyle then Some(StraySettings)
    else if !UnconditionalLast(LightRules(e)) then Some(UnreachableArm)
    else None
  }

  predicate NamesACondition(r: Rule) {
    r.when.Some? &&
    var c := r.when.value;
    || c.layers.Some? || c.battery.Some? || c.outputMode.Some? || c.connection.Some? || c.effects.Some?
    || c.indicators.Some? || c.maintenance.Some? || c.splitTransport.Some?
  }

  predicate NamesSomething(e: Entry) { e.bindsAction || e.color.Some? || e.rules != [] }

  /** Settings beside the color that the color would have to carry. */
  predicate SettingsCarried(e: Entry) {
    e.color.None? ==>
      && e.style.effect.SolidEffect? && e.style.periodMs.None? && e.style.phaseMs.None?
      && e.style.duty.None? && e.style.stepMs.None?
  }

  /** Every arm but the last can fail, the inline color counting as an arm. */
  predicate ArmsReachable(e: Entry) {
    forall k :: 0 <= k < |e.rules| && (k < |e.rules| - 1 || e.color.Some?) ==> NamesACondition(e.rules[k])
  }

  predicate WellFormed(e: Entry, lightingOnly: bool) {
    (lightingOnly ==> !e.bindsAction) && NamesSomething(e) && SettingsCarried(e) && ArmsReachable(e)
  }

  lemma ArmsReachableExactly(e: Entry)
    ensures UnconditionalLast(LightRules(e)) <==> ArmsReachable(e)
  {
    assert forall r: Rule :: r.Named().Some? <==> NamesACondition(r);
    var rules := LightRules(e);
    assert forall k :: 0 <= k < |e.rules| ==> rules[k] == e.rules[k];
    assert |rules| == |e.rules| + (if e.color.Some? then 1 else 0);
    if UnconditionalLast(rules) {
      forall k | 0 <= k < |e.rules| && (k < |e.rules| - 1 || e.color.Some?) ensures NamesACondition(e.rules[k]) {
        assert rules[k].Named().Some?;
      }
    }
  }

  /** Validation passes exactly the well-formed entries, and of several faults
      reports the first: a light's action, nothing named, stray settings, an arm
      that can never show. */
  lemma ValidExactly(e: Entry, lightingOnly: bool)
    ensures Fault(e, lightingOnly).None? <==> WellFormed(e, lightingOnly)
    ensures Fault(e, lightingOnly) == Some(LightBindsAction) <==> lightingOnly && e.bindsAction
    ensures Fault(e, lightingOnly) == Some(NamesNothing) <==> !NamesSomething(e)
    ensures Fault(e, lightingOnly) == Some(StraySettings) <==>
            !(lightingOnly && e.bindsAction) && NamesSomething(e) && !SettingsCarried(e)
    ensures Fault(e, lightingOnly) == Some(UnreachableArm) <==>
            !(lightingOnly && e.bindsAction) && NamesSomething(e) && SettingsCarried(e) && !ArmsReachable(e)
  {
    ArmsReachableExactly(e);
  }

  method Validate(e: Entry, lightingOnly: bool) returns (fault: Option<ConfigError>)
    ensures fault == Fault(e, lightingOnly)
    ensures fault.None? <==> WellFormed(e, lightingOnly)
  {
    ValidExactly(e, lightingOnly);
    if lightingOnly && e.bindsAction { return Some(LightBindsAction); }
    var rules := LightRules(e);
    if !e.bindsAction && rules == [] { return Some(NamesNothing); }
    if e.color.None? {
      var stray := !e.style.effect.SolidEffect? || e.style.periodMs.Some? || e.style.phaseMs.Some?
                   || e.style.duty.Some? || e.style.stepMs.Some?;
      if stray { return Some(StraySettings); }
    }
    for k := 0 to |rules|
      invariant forall i :: 0 <= i < k && i + 1 != |rules| ==> rules[i].Named().Some?
    {
      if rules[k].Named().None? && k + 1 != |rules| { return Some(UnreachableArm); }
    }
    fault := None;
  }

  // ---- Lowering one entry ----

  function LookOf(r: Rule): Look
    requires r.color.Some?
  {
    Look(r.color.value, r.style)
  }

  predicate Colored(rules: seq<Rule>) { forall r :: r in rules ==> r.color.Some? }

  function ConditionalFor(r: Rule, target: Target, index: u8): ConditionalCell
    requires r.color.Some? && r.Named().Some?
  {
    ConditionalCell(Some(LayerGate(index, true)), r.Named().value, target, LookOf(r))
  }

  function RuleConditionals(r: Rule, targets: seq<Target>, index: u8): (cells: seq<ConditionalCell>)
    requires r.color.Some?
    ensures |cells| == if r.Named().Some? then |targets| else 0
  {
    if r.Named().None? then []
    else seq(|targets|, i requires 0 <= i < |targets| => ConditionalFor(r, targets[i], index))
  }

  function RuleScenes(r: Rule, targets: seq<Target>, index: u8): (cells: seq<SceneCell>)
    requires r.color.Some?
    ensures |cells| == if r.Named().None? then |targets| else 0
  {
    if r.Named().Some? then []
    else seq(|targets|, i requires 0 <= i < |targets| => SceneCell(index, targets[i], LookOf(r)))
  }

  /** The last arm first, so that the first one comes last. */
  function LoweredConditionals(rules: seq<Rule>, targets: seq<Target>, index: u8): seq<ConditionalCell>
    requires Colored(rules)
  {
    if rules == [] then []
    else LoweredConditionals(rules[1..], targets, index) + RuleConditionals(rules[0], targets, index)
  }

  function LoweredScenes(rules: seq<Rule>, targets: seq<Target>, index: u8): seq<SceneCell>
    requires Colored(rules)
  {
    if rules == [] then []
    else LoweredScenes(rules[1..], targets, index) + RuleScenes(rules[0], targets, index)
  }

  /** What an entry lowers to; nothing when it only binds an action. */
  predicate Lowers(e: Entry, lightingOnly: bool) {
    && Fault(e, lightingOnly).None?
    && (LightRules(e) != [] ==> e.targets.Some? && Colored(LightRules(e)))
  }

  function EntryConditionals(e: Entry, index: u8): seq<ConditionalCell>
    requires LightRules(e) != [] ==> e.targets.Some? && Colored(LightRules(e))
  {
    if LightRules(e) == [] then [] else LoweredConditionals(LightRules(e), e.targets.value, index)
  }

  function EntryScenes(e: Entry, index: u8): seq<SceneCell>
    requires LightRules(e) != [] ==> e.targets.Some? && Colored(LightRules(e))
  {
    if LightRules(e) == [] then [] else LoweredScenes(LightRules(e), e.targets.value, index)
  }

  /** Well-formed, and what it lights is known: its target resolves and every
      color parses. */
  predicate Lowerable(e: Entry, lightingOnly: bool) {
    && WellFormed(e, lightingOnly)
    && (e.rules != [] || e.color.Some? ==> e.targets.Some?)
    && (forall r :: r in e.rules ==> r.color.Some?) && (e.color.Some? ==> e.color.value.Some?)
  }

  lemma LowersExactly(e: Entry, lightingOnly: bool)
    ensures Lowers(e, lightingOnly) <==> Lowerable(e, lightingOnly)
  {
    ValidExactly(e, lightingOnly);
    hide Fault, WellFormed;
    var rules := LightRules(e);
    if e.color.Some? { assert rules[|e.rules|] == Rule(e.color.value, e.style, None); }
    assert forall r :: r in e.rules ==> r in rules;
  }

  // ---- Lowering a layer ----

  /** Keys, then lights, each with the kind it is validated as. */
  function EntriesOf(layer: Layer): (r: seq<(Entry, bool)>)
    ensures |r| == |layer.keys| + |layer.lights|
    ensures forall i :: 0 <= i < |r| ==>
      r[i] == if i < |layer.keys| then (layer.keys[i], false) else (layer.lights[i - |layer.keys|], true)
  {
    seq(|layer.keys| + |layer.lights|, i requires 0 <= i < |layer.keys| + |layer.lights| =>
      if i < |layer.keys| then (layer.keys[i], false) else (layer.lights[i - |layer.keys|], true))
  }

  predicate AllLower(entries: seq<(Entry, bool)>) {
    forall e :: e in entries ==> Lowers(e.0, e.1)
  }

  /** So a layer lowers exactly when all its keys are lowerable and all its
      lights are, as lights. */
  lemma LayerLowersExactly(layer: Layer)
    ensures AllLower(EntriesOf(layer)) <==>
            && (forall e :: e in layer.keys ==> Lowerable(e, false))
            && (forall e :: e in layer.lights ==> Lowerable(e, true))
  {
    hide Lowers, Lowerable;
    forall e: Entry, lightingOnly: bool ensures Lowers(e, lightingOnly) <==> Lowerable(e, lightingOnly) {
      LowersExactly(e, lightingOnly);
    }
    var entries, n := EntriesOf(layer), |layer.keys|;
    assert forall i :: 0 <= i < n ==> entries[i] == (layer.keys[i], false);
    forall i | 0 <= i < |layer.lights| ensures entries[n + i] == (layer.lights[i], true) {}
    if AllLower(entries) {
      assert forall i :: 0 <= i < |entries| ==> Lowers(entries[i].0, entries[i].1);
    }
  }

  function AllConditionals(entries: seq<(Entry, bool)>, index: u8): seq<ConditionalCell>
    requires AllLower(entries)
  {
    if entries == [] then []
    else AllConditionals(entries[..|entries| - 1], index) + EntryConditionals(entries[|entries| - 1].0, index)
  }

  function AllScenes(entries: seq<(Entry, bool)>, index: u8): seq<SceneCell>
    requires AllLower(entries)
  {
    if entries == [] then []
    else AllScenes(entries[..|entries| - 1], index) + EntryScenes(entries[|entries| - 1].0, index)
  }

  datatype Tables = Tables(scenes: seq<SceneCell>, conditionals: seq<ConditionalCell>)

  /** One arm, appended target by target. */
  method PushRule(rule: Rule, targets: seq<Target>, index: u8, tables: Tables) returns (r: Tables)
    requires rule.color.Some?
    ensures r.scenes == tables.scenes + RuleScenes(rule, targets, index)
    ensures r.conditionals == tables.conditionals + RuleConditionals(rule, targets, index)
  {
    var scenes, conditionals := tables.scenes, tables.conditionals;
    ghost var s, c := RuleScenes(rule, targets, index), RuleConditionals(rule, targets, index);
    match rule.Named() {
      case Some(when) =>
        for i := 0 to |targets|
          invariant conditionals == tables.conditionals + c[..i]
        {
          conditionals := conditionals + [ConditionalCell(Some(LayerGate(index, true)),
            Conditions(when.layers, when.battery, when.outputMode, when.connection, when.effects, when.indicators,
                       when.maintenance, when.splitTransport), targets[i], Look(rule.color.value, rule.style))];
          assert c[..i + 1] == c[..i] + [c[i]];
        }
        assert c[..|targets|] == c;
      case None =>
        for i := 0 to |targets|
          invariant scenes == tables.scenes + s[..i]
        {
          assert s[i] == SceneCell(index, targets[i], LookOf(rule));
          scenes := scenes + [SceneCell(index, targets[i], Look(rule.color.value, rule.style))];
          assert s[..i + 1] == s[..i] + [s[i]];
        }
        assert s[..|targets|] == s;
    }
    r := Tables(scenes, conditionals);
  }

  /** The arms of one entry, last to first. */
  method PushRules(rules: seq<Rule>, targets: seq<Target>, index: u8, tables: Tables) returns (r: Result<Tables,
                   ConfigError>)
    ensures r.Ok? <==> Colored(rules)
    ensures r.Err? ==> r.error == BadColor
    ensures r.Ok? ==>
      && r.value.scenes == tables.scenes + LoweredScenes(rules, targets, index)
      && r.value.conditionals == tables.conditionals + LoweredConditionals(rules, targets, index)
  {
    hide RuleScenes, RuleConditionals;
    var now := tables;
    var k := |rules|;
    while k > 0
      invariant 0 <= k <= |rules| && Colored(rules[k..])
      invariant now.scenes == tables.scenes + LoweredScenes(rules[k..], targets, index)
      invariant now.conditionals == tables.conditionals + LoweredConditionals(rules[k..], targets, index)
    {
      k := k - 1;
      assert rules[k..] == [rules[k]] + rules[k + 1..];
      if rules[k].color.None? {
        assert rules[k] in rules;
        return Err(BadColor);
      }
      now := PushRule(rules[k], targets, index, now);
    }
    assert rules[0..] == rules;
    r := Ok(now);
  }

  /** The cells one layer contributes to the two tables. */
  method LayerScenes(layer: Layer, index: u8) returns (r: Result<Tables, ConfigError>)
    ensures r.Ok? <==> AllLower(EntriesOf(layer))
    ensures r.Ok? <==>
            && (forall e :: e in layer.keys ==> Lowerable(e, false))
            && (forall e :: e in layer.lights ==> Lowerable(e, true))
    ensures r.Ok? ==>
      r.value == Tables(AllScenes(EntriesOf(layer), index), AllConditionals(EntriesOf(layer), index))
  {
    hide LoweredScenes, LoweredConditionals, LightRules, Fault;
    LayerLowersExactly(layer);
    var tables := Tables([], []);
    var entries := EntriesOf(layer);
    for n := 0 to |entries|
      invariant AllLower(entries[..n])
      invariant tables == Tables(AllScenes(entries[..n], index), AllConditionals(entries[..n], index))
    {
      var (entry, isLight) := entries[n];
      assert entries[..n + 1] == entries[..n] + [entries[n]] && entries[..n + 1][..n] == entries[..n];
      assert entries[n] in entries;
      var fault := Validate(entry, isLight);
      if fault.Some? { return Err(fault.value); }
      var rules := LightRules(entry);
      if rules != [] {
        if entry.targets.None? { return Err(UnknownTarget); }
        var pushed := PushRules(rules, entry.targets.value, index, tables);
        if pushed.Err? { return Err(pushed.error); }
        tables := pushed.value;
      }
    }
    assert entries[..|entries|] == entries;
    r := Ok(tables);
  }

  // ---- What tables show ----

  datatype Environment = Environment(active: set<u8>, holds: (Field, Gate) -> bool)

  predicate GateMet(env: Environment, field: Field, gate: Option<Gate>) { gate.Some? ==> env.holds(field, gate.value) }

  /** Every named gate must hold. */
  predicate Met(c: Conditions, env: Environment) {
    && GateMet(env, Layers, c.layers) && GateMet(env, Battery, c.battery)
    && GateMet(env, Output, c.outputMode) && GateMet(env, Connection, c.connection)
    && GateMet(env, Effects, c.effects) && GateMet(env, Indicators, c.indicators)
    && GateMet(env, Maintenance, c.maintenance) && GateMet(env, SplitTransport, c.splitTransport)
  }

  predicate Holds(c: ConditionalCell, env: Environment) {
    && (c.layer.Some? ==> (c.layer.value.layer in env.active) == c.layer.value.active)
    && Met(c.conditions, env)
  }

  /** The device rule for conditional cells: the last one that holds. */
  function LastHolding(table: seq<ConditionalCell>, env: Environment, target: Target): Option<Look> {
    if table == [] then None
    else
      var last := table[|table| - 1];
      if last.target == target && Holds(last, env) then Some(last.look)
      else LastHolding(table[..|table| - 1], env, target)
  }

  /** The last scene cell of a key. */
  function LastScene(scenes: seq<SceneCell>, layer: u8, target: Target): Option<Look> {
    if scenes == [] then None
    else
      var last := scenes[|scenes| - 1];
      if last.layer == layer && last.target == target then Some(last.look)
      else LastScene(scenes[..|scenes| - 1], layer, target)
  }

  /** Any conditional cell outranks any scene cell. */
  function Shown(tables: Tables, env: Environment, layer: u8, target: Target): Option<Look> {
    var conditional := LastHolding(tables.conditionals, env, target);
    if conditional.Some? then conditional else LastScene(tables.scenes, layer, target)
  }

  // ---- What entries mean ----

  /** The first conditional arm that holds. */
  function FirstHolding(rules: seq<Rule>, env: Environment): Option<Look>
    requires Colored(rules)
  {
    if rules == [] then None
    else if rules[0].Named().Some? && Met(rules[0].Named().value, env) then Some(LookOf(rules[0]))
    else FirstHolding(rules[1..], env)
  }

  /** The final unconditional arm. */
  function FinalArm(rules: seq<Rule>): Option<Look>
    requires Colored(rules)
  {
    if rules != [] && rules[|rules| - 1].Named().None? then Some(LookOf(rules[|rules| - 1])) else None
  }

  /** Arms read like a match: the first that holds, the unconditional one always does. */
  function FirstMatch(rules: seq<Rule>, env: Environment): Option<Look>
    requires Colored(rules)
  {
    if rules == [] then None
    else if rules[0].Named().None? || Met(rules[0].Named().value, env) then Some(LookOf(rules[0]))
    else FirstMatch(rules[1..], env)
  }

  /** Validation is what makes the two readings agree. */
  lemma {:induction false} MatchIsHoldingOrFinal(rules: seq<Rule>, env: Environment)
    requires Colored(rules) && UnconditionalLast(rules)
    ensures FirstMatch(rules, env) == if FirstHolding(rules, env).Some? then FirstHolding(rules,
      env) else FinalArm(rules)
  {
    if rules != [] {
      var rest := rules[1..];
      assert forall k :: 0 <= k < |rest| - 1 ==> rest[k] == rules[k + 1];
      assert forall r :: r in rest ==> r in rules;
      MatchIsHoldingOrFinal(rest, env);
      assert |rules| == 1 ==> rest == [];
    }
  }

  predicate Covers(e: Entry, target: Target) { LightRules(e) != [] && e.targets.Some? && target in e.targets.value }

  /** The last entry covering the target with a conditional arm that holds, and
      in it the first such arm. */
  function LayerArm(entries: seq<(Entry, bool)>, env: Environment, target: Target): Option<Look>
    requires AllLower(entries)
  {
    if entries == [] then None
    else
      var e := entries[|entries| - 1].0;
      var arm := if Covers(e, target) then FirstHolding(LightRules(e), env) else None;
      if arm.Some? then arm else LayerArm(entries[..|entries| - 1], env, target)
  }

  /** The last entry covering the target with an unconditional arm. */
  function LayerFinal(entries: seq<(Entry, bool)>, target: Target): Option<Look>
    requires AllLower(entries)
  {
    if entries == [] then None
    else
      var e := entries[|entries| - 1].0;
      var arm := if Covers(e, target) then FinalArm(LightRules(e)) else None;
      if arm.Some? then arm else LayerFinal(entries[..|entries| - 1], target)
  }

  // ---- One entry, lowered ----

  lemma {:induction false} LastHoldingAppend(a: seq<ConditionalCell>, b: seq<ConditionalCell>, env: Environment,
                                             target: Target)
    ensures LastHolding(a + b, env, target) ==
            if LastHolding(b, env, target).Some? then LastHolding(b, env, target) else LastHolding(a, env, target)
  {
    if b == [] {
      assert a + b == a;
    } else {
      assert (a + b)[..|a + b| - 1] == a + b[..|b| - 1];
      LastHoldingAppend(a, b[..|b| - 1], env, target);
    }
  }

  lemma {:induction false} LastSceneAppend(a: seq<SceneCell>, b: seq<SceneCell>, layer: u8, target: Target)
    ensures LastScene(a + b, layer, target) ==
            if LastScene(b, layer, target).Some? then LastScene(b, layer, target) else LastScene(a, layer, target)
  {
    if b == [] {
      assert a + b == a;
    } else {
      assert (a + b)[..|a + b| - 1] == a + b[..|b| - 1];
      LastSceneAppend(a, b[..|b| - 1], layer, target);
    }
  }

  lemma {:induction false} RuleConditionalsShow(r: Rule, targets: seq<Target>, index: u8, env: Environment,
                                                target: Target)
    requires r.color.Some? && r.Named().Some?
    ensures LastHolding(RuleConditionals(r, targets, index), env, target) ==
            if target in targets && index in env.active && Met(r.Named().value, env) then Some(LookOf(r)) else None
  {
    if targets != [] {
      var init := targets[..|targets| - 1];
      RuleConditionalsShow(r, init, index, env, target);
      assert targets == init + [targets[|targets| - 1]];
      assert RuleConditionals(r, targets, index)[..|targets| - 1] == RuleConditionals(r, init, index);
    }
  }

  lemma {:induction false} RuleScenesShow(r: Rule, targets: seq<Target>, index: u8, layer: u8, target: Target)
    requires r.color.Some? && r.Named().None?
    ensures LastScene(RuleScenes(r, targets, index), layer, target) ==
            if target in targets && index == layer then Some(LookOf(r)) else None
  {
    if targets != [] {
      var init := targets[..|targets| - 1];
      RuleScenesShow(r, init, index, layer, target);
      assert targets == init + [targets[|targets| - 1]];
      assert RuleScenes(r, targets, index)[..|targets| - 1] == RuleScenes(r, init, index);
    }
  }

  /** Reversed, the last matching cell is the first matching arm. */
  lemma {:induction false} LoweredConditionalsShow(rules: seq<Rule>, targets: seq<Target>, index: u8,
                                                   env: Environment, target: Target)
    requires Colored(rules)
    ensures LastHolding(LoweredConditionals(rules, targets, index), env, target) ==
            if target in targets && index in env.active then FirstHolding(rules, env) else None
  {
    if rules != [] {
      assert forall r :: r in rules[1..] ==> r in rules;
      LoweredConditionalsShow(rules[1..], targets, index, env, target);
      if rules[0].Named().Some? { RuleConditionalsShow(rules[0], targets, index, env, target); }
      hide Met, LookOf, LastHolding;
      LastHoldingAppend(LoweredConditionals(rules[1..], targets, index), RuleConditionals(rules[0], targets, index),
        env, target);
      assert rules[0].Named().None? ==> LastHolding([], env, target).None? by { NothingHolds(env, target); }
    }
  }

  lemma NothingHolds(env: Environment, target: Target)
    ensures LastHolding([], env, target) == None
  {
  }

  lemma {:induction false} LoweredScenesShow(rules: seq<Rule>, targets: seq<Target>, index: u8, layer: u8,
                                             target: Target)
    requires Colored(rules) && UnconditionalLast(rules)
    ensures LastScene(LoweredScenes(rules, targets, index), layer, target) ==
            if target in targets && index == layer then FinalArm(rules) else None
  {
    if rules != [] {
      var rest := rules[1..];
      assert forall r :: r in rest ==> r in rules;
      assert forall k :: 0 <= k < |rest| - 1 ==> rest[k] == rules[k + 1];
      LoweredScenesShow(rest, targets, index, layer, target);
      if rules[0].Named().None? {
        RuleScenesShow(rules[0], targets, index, layer, target);
        assert rest == [];
      } else {
        assert rest != [] ==> rest[|rest| - 1] == rules[|rules| - 1];
      }
      hide LookOf;
      LastSceneAppend(LoweredScenes(rest, targets, index), RuleScenes(rules[0], targets, index), layer, target);
    }
  }

  // ---- One layer, lowered ----

  lemma {:induction false} LayerConditionalsShow(entries: seq<(Entry, bool)>, index: u8, env: Environment,
                                                 target: Target)
    requires AllLower(entries)
    ensures LastHolding(AllConditionals(entries, index), env, target) ==
            if index in env.active then LayerArm(entries, env, target) else None
  {
    if entries != [] {
      var init, e := entries[..|entries| - 1], entries[|entries| - 1].0;
      assert entries[|entries| - 1] in entries && forall x :: x in init ==> x in entries;
      LayerConditionalsShow(init, index, env, target);
      hide LightRules, Fault, FirstHolding, LastHolding;
      LastHoldingAppend(AllConditionals(init, index), EntryConditionals(e, index), env, target);
      if LightRules(e) != [] {
        LoweredConditionalsShow(LightRules(e), e.targets.value, index, env, target);
      } else {
        NothingHolds(env, target);
      }
    }
  }

  lemma NoScene(layer: u8, target: Target)
    ensures LastScene([], layer, target) == None
  {
  }

  lemma {:induction false} LayerScenesShow(entries: seq<(Entry, bool)>, index: u8, layer: u8, target: Target)
    requires AllLower(entries)
    ensures LastScene(AllScenes(entries, index), layer, target) ==
            if index == layer then LayerFinal(entries, target) else None
  {
    if entries != [] {
      var init, e := entries[..|entries| - 1], entries[|entries| - 1].0;
      assert entries[|entries| - 1] in entries && forall x :: x in init ==> x in entries;
      LayerScenesShow(init, index, layer, target);
      assert UnconditionalLast(LightRules(e));
      hide LightRules, Fault, FinalArm, LastScene;
      LastSceneAppend(AllScenes(init, index), EntryScenes(e, index), layer, target);
      if LightRules(e) != [] {
        LoweredScenesShow(LightRules(e), e.targets.value, index, layer, target);
      } else {
        NoScene(layer, target);
      }
    }
  }

  // ---- Entry against entry ----

  function Over(first: Option<Look>, second: Option<Look>): Option<Look> { if first.Some? then first else second }

  /** The documented reading of a layer: the last entry covering the target
      decides, by its first matching arm. */
  function LastEntry(entries: seq<(Entry, bool)>, env: Environment, target: Target): Option<Look>
    requires AllLower(entries)
  {
    if entries == [] then None
    else
      var e := entries[|entries| - 1].0;
      Over(if Covers(e, target) then FirstMatch(LightRules(e), env) else None, LastEntry(entries[..|entries| - 1],
        env, target))
  }

  /** What the device shows for a layer: its conditional cells, then its scenes. */
  function LayerShows(entries: seq<(Entry, bool)>, env: Environment, target: Target): Option<Look>
    requires AllLower(entries)
  {
    Over(LayerArm(entries, env, target), LayerFinal(entries, target))
  }

  function OwnArms(e: Entry, target: Target): seq<Rule> { if Covers(e, target) then LightRules(e) else [] }

  /** Every arm for a target, the ones that outrank others first. */
  function Arms(entries: seq<(Entry, bool)>, target: Target): seq<Rule> {
    if entries == [] then []
    else OwnArms(entries[|entries| - 1].0, target) + Arms(entries[..|entries| - 1], target)
  }

  predicate EndsUnconditionally(rules: seq<Rule>) { rules != [] && rules[|rules| - 1].Named().None? }

  /** Those from the last entry with an unconditional arm on. */
  function DecidingArms(entries: seq<(Entry, bool)>, target: Target): (r: seq<Rule>)
    ensures r <= Arms(entries, target)
  {
    if entries == [] then []
    else
      var own := OwnArms(entries[|entries| - 1].0, target);
      if EndsUnconditionally(own) then own else own + DecidingArms(entries[..|entries| - 1], target)
  }

  /** And those of the entries before it. */
  function EarlierArms(entries: seq<(Entry, bool)>, target: Target): seq<Rule> {
    Arms(entries, target)[|DecidingArms(entries, target)|..]
  }

  lemma ArmsSplit(entries: seq<(Entry, bool)>, target: Target)
    ensures Arms(entries, target) == DecidingArms(entries, target) + EarlierArms(entries, target)
  {
  }

  lemma {:induction false} ArmsColored(entries: seq<(Entry, bool)>, target: Target)
    requires AllLower(entries)
    ensures Colored(Arms(entries, target)) && Colored(DecidingArms(entries, target))
    ensures Colored(EarlierArms(entries, target))
  {
    if entries != [] {
      assert entries[|entries| - 1] in entries;
      ArmsColored(entries[..|entries| - 1], target);
    }
  }

  lemma {:induction false} FirstHoldingAppend(a: seq<Rule>, b: seq<Rule>, env: Environment)
    requires Colored(a) && Colored(b)
    ensures FirstHolding(a + b, env) == Over(FirstHolding(a, env), FirstHolding(b, env))
  {
    if a == [] {
      assert a + b == b;
    } else {
      assert (a + b)[1..] == a[1..] + b;
      assert forall r :: r in a[1..] ==> r in a;
      FirstHoldingAppend(a[1..], b, env);
    }
  }

  lemma {:induction false} LayerArmIsFirst(entries: seq<(Entry, bool)>, env: Environment, target: Target)
    requires AllLower(entries)
    ensures Colored(Arms(entries, target))
    ensures LayerArm(entries, env, target) == FirstHolding(Arms(entries, target), env)
  {
    ArmsColored(entries, target);
    if entries != [] {
      var init, e := entries[..|entries| - 1], entries[|entries| - 1].0;
      assert entries[|entries| - 1] in entries && forall x :: x in init ==> x in entries;
      LayerArmIsFirst(init, env, target);
      ArmsColored(init, target);
      FirstHoldingAppend(OwnArms(e, target), Arms(init, target), env);
      hide LightRules, Fault;
    }
  }

  /** What one entry asks of a target: its arms, then its unconditional one. */
  lemma EntryReads(e: Entry, lightingOnly: bool, env: Environment, target: Target)
    requires Lowers(e, lightingOnly)
    ensures var own := OwnArms(e, target);
            && Colored(own)
            && (if Covers(e, target) then FirstMatch(LightRules(e), env) else None)
               == Over(FirstHolding(own, env), FinalArm(own))
            && FinalArm(own) == (if Covers(e, target) then FinalArm(LightRules(e)) else None)
            && (EndsUnconditionally(own) <==> FinalArm(own).Some?)
  {
    if Covers(e, target) { MatchIsHoldingOrFinal(LightRules(e), env); }
  }

  /** The documented reading is that the deciding arms, then the unconditional
      one, show. */
  lemma {:induction false} LastEntryIsDeciding(entries: seq<(Entry, bool)>, env: Environment, target: Target)
    requires AllLower(entries)
    ensures Colored(DecidingArms(entries, target))
    ensures LastEntry(entries, env, target)
            == Over(FirstHolding(DecidingArms(entries, target), env), LayerFinal(entries, target))
  {
    ArmsColored(entries, target);
    if entries != [] {
      var init, e := entries[..|entries| - 1], entries[|entries| - 1].0;
      assert entries[|entries| - 1] in entries && forall x :: x in init ==> x in entries;
      LastEntryIsDeciding(init, env, target);
      EntryReads(e, entries[|entries| - 1].1, env, target);
      hide LightRules, FirstMatch, Fault, Covers, OwnArms, FirstHolding, FinalArm, EndsUnconditionally, Arms;
      FirstHoldingAppend(OwnArms(e, target), DecidingArms(init, target), env);
    }
  }

  /** No arm from the deciding entry on holds, that entry has its unconditional
      arm to show, and a conditional arm of an earlier entry holds. */
  predicate Shadowed(entries: seq<(Entry, bool)>, env: Environment, target: Target)
    requires AllLower(entries)
  {
    ArmsColored(entries, target);
    && FirstHolding(DecidingArms(entries, target), env).None? && LayerFinal(entries, target).Some?
    && FirstHolding(EarlierArms(entries, target), env).Some?
  }

  lemma {:induction false} NothingEarlier(entries: seq<(Entry, bool)>, target: Target)
    requires AllLower(entries)
    ensures LayerFinal(entries, target).None? ==> EarlierArms(entries, target) == []
  {
    if entries != [] {
      var init := entries[..|entries| - 1];
      assert entries[|entries| - 1] in entries && forall x :: x in init ==> x in entries;
      NothingEarlier(init, target);
      hide LightRules, Fault;
    }
  }

  /** What a layer shows is what its last entry asks for, except when that entry
      is shadowed. Then the holding arm of an earlier entry shows where the
      documentation promises the deciding entry's unconditional arm; the two are
      alike exactly when their colors and styles are. */
  lemma LastEntryDecides(entries: seq<(Entry, bool)>, env: Environment, target: Target)
    requires AllLower(entries)
    ensures Colored(EarlierArms(entries, target))
    ensures var shown, promised := LayerShows(entries, env, target), LastEntry(entries, env, target);
            var arm, final := FirstHolding(EarlierArms(entries, target), env), LayerFinal(entries, target);
            && (Shadowed(entries, env, target) ==> shown == arm && promised == final)
            && (shown == promised <==> !Shadowed(entries, env, target) || arm == final)
  {
    ArmsColored(entries, target);
    ArmsSplit(entries, target);
    LayerArmIsFirst(entries, env, target);
    LastEntryIsDeciding(entries, env, target);
    NothingEarlier(entries, target);
    FirstHoldingAppend(DecidingArms(entries, target), EarlierArms(entries, target), env);
    hide FirstHolding, Arms, DecidingArms, EarlierArms, LastEntry, LayerArm, LayerFinal, AllLower;
  }

  // ---- Which configurations read as documented ----

  function GateFor(c: Conditions, field: Field): Option<Gate> {
    match field
    case Layers => c.layers
    case Battery => c.battery
    case Output => c.outputMode
    case Connection => c.connection
    case Effects => c.effects
    case Indicators => c.indicators
    case Maintenance => c.maintenance
    case SplitTransport => c.splitTransport
  }

  /** A gate of a field. */
  type Asked = (Field, Gate)

  /** What is known of the gates: which hold wherever others do, and which never
      hold together. A charge of at least 80 implies one of at least 50 and
      excludes one of at most 20. */
  datatype Theory = Theory(implies: (Asked, Asked) -> bool, excludes: (Asked, Asked) -> bool)

  ghost predicate Sound(th: Theory) {
    && (forall x :: th.implies(x, x))
    && (forall x, y, z :: th.implies(x, y) && th.implies(y, z) ==> th.implies(x, z))
    && (forall x, y, v, w :: th.excludes(x, y) && th.implies(v, x) && th.implies(w, y) ==> th.excludes(v, w))
  }

  predicate HoldsIn(env: Environment, x: Asked) { env.holds(x.0, x.1) }

  /** An environment there can be. */
  ghost predicate Respects(env: Environment, th: Theory) {
    && (forall x, y :: th.implies(x, y) && HoldsIn(env, x) ==> HoldsIn(env, y))
    && (forall x, y :: th.excludes(x, y) ==> !HoldsIn(env, x) || !HoldsIn(env, y))
  }

  predicate Asks(c: Conditions, x: Asked) { GateFor(c, x.0) == Some(x.1) }

  ghost predicate Follows(c: Conditions, th: Theory, y: Asked) { exists x :: Asks(c, x) && th.implies(x, y) }

  /** Whatever `inner` asks follows from what `outer` asks. */
  ghost predicate Within(inner: Conditions, outer: Conditions, th: Theory) {
    forall x :: Asks(inner, x) ==> Follows(outer, th, x)
  }

  /** No two gates asked for exclude each other. */
  ghost predicate CanHold(c: Conditions, th: Theory) {
    forall x, y :: Asks(c, x) && Asks(c, y) ==> !th.excludes(x, y)
  }

  /** The environment in which exactly what follows from `c` holds. */
  ghost function Minimal(c: Conditions, th: Theory): Environment { Environment({}, (f, g) => Follows(c, th, (f, g))) }

  lemma MetByGate(c: Conditions, env: Environment)
    ensures Met(c, env) <==> forall x :: Asks(c, x) ==> HoldsIn(env, x)
  {
    if forall x :: Asks(c, x) ==> HoldsIn(env, x) {
      forall f ensures GateMet(env, f, GateFor(c, f)) {
        if GateFor(c, f).Some? { assert Asks(c, (f, GateFor(c, f).value)); }
      }
      assert forall f :: GateMet(env, f, GateFor(c, f));
      assert GateMet(env, Layers, GateFor(c, Layers)) && GateMet(env, Battery, GateFor(c, Battery));
      assert GateMet(env, Output, GateFor(c, Output)) && GateMet(env, Connection, GateFor(c, Connection));
      assert GateMet(env, Effects, GateFor(c, Effects)) && GateMet(env, Indicators, GateFor(c, Indicators));
      assert GateMet(env, Maintenance, GateFor(c, Maintenance));
      assert GateMet(env, SplitTransport, GateFor(c, SplitTransport));
    }
  }

  /** A cell holds exactly where its layer is as active as its gate asks and
      every gate it names holds. So one that asks for an inactive layer never
      holds together with one that asks for the layer active. */
  lemma HoldsExactly(c: ConditionalCell, env: Environment)
    ensures Holds(c, env) <==>
            && (forall layer :: c.layer == Some(LayerGate(layer, true)) ==> layer in env.active)
            && (forall layer :: c.layer == Some(LayerGate(layer, false)) ==> layer !in env.active)
            && (forall field, gate :: GateFor(c.conditions, field) == Some(gate) ==> env.holds(field, gate))
  {
    MetByGate(c.conditions, env);
    hide Met, GateFor;
    assert forall x :: Asks(c.conditions, x) <==> GateFor(c.conditions, x.0) == Some(x.1);
    if forall x :: Asks(c.conditions, x) ==> HoldsIn(env, x) {
      forall field, gate | GateFor(c.conditions, field) == Some(gate) ensures env.holds(field, gate) {
        assert Asks(c.conditions, (field, gate));
      }
    }
    if c.layer.Some? { assert c.layer == Some(LayerGate(c.layer.value.layer, c.layer.value.active)); }
  }

  lemma MinimalRespects(c: Conditions, th: Theory)
    requires Sound(th) && CanHold(c, th)
    ensures Respects(Minimal(c, th), th)
  {
    var env := Minimal(c, th);
    assert forall x :: HoldsIn(env, x) <==> Follows(c, th, x);
    hide HoldsIn, Asks, Minimal;
    forall x, y | th.implies(x, y) && Follows(c, th, x) ensures Follows(c, th, y) {
      var v :| Asks(c, v) && th.implies(v, x);
      assert th.implies(v, y);
    }
    forall x, y | Follows(c, th, x) && Follows(c, th, y) ensures !th.excludes(x, y) {
      var v :| Asks(c, v) && th.implies(v, x);
      var w :| Asks(c, w) && th.implies(w, y);
      assert !th.excludes(v, w);
    }
  }

  lemma MetInMinimal(inner: Conditions, outer: Conditions, th: Theory)
    ensures Met(inner, Minimal(outer, th)) <==> Within(inner, outer, th)
  {
    MetByGate(inner, Minimal(outer, th));
    assert forall x :: HoldsIn(Minimal(outer, th), x) <==> Follows(outer, th, x);
  }

  lemma MetWithin(inner: Conditions, outer: Conditions, env: Environment, th: Theory)
    requires Within(inner, outer, th) && Met(outer, env) && Respects(env, th)
    ensures Met(inner, env)
  {
    MetByGate(inner, env);
    MetByGate(outer, env);
    hide Met, Asks, HoldsIn;
  }

  lemma MetCanHold(c: Conditions, env: Environment, th: Theory)
    requires Met(c, env) && Respects(env, th)
    ensures CanHold(c, th)
  {
    MetByGate(c, env);
    hide Met, Asks, HoldsIn;
  }

  /** Gates that have nothing to do with each other: a theory every environment
      respects. */
  const Independent := Theory((x: Asked, y: Asked) => x == y, (x: Asked, y: Asked) => false)

  lemma IndependentGates(env: Environment)
    ensures Sound(Independent) && Respects(env, Independent)
  {
  }

  /** Rule `h` outranks rule `k` wherever the latter holds. */
  ghost predicate Outranks(arms: seq<Rule>, h: nat, k: nat, th: Theory)
    requires h < k < |arms| && arms[k].Named().Some?
  {
    arms[h].Named().Some? && Within(arms[h].Named().value, arms[k].Named().value, th)
  }

  /** Each conditional arm of an entry before the deciding one can never hold,
      looks like the deciding entry's unconditional arm, or is outranked
      whenever it holds. */
  ghost predicate Unshadowable(entries: seq<(Entry, bool)>, target: Target, th: Theory)
    requires AllLower(entries)
  {
    ArmsColored(entries, target);
    var arms := Arms(entries, target);
    forall k :: |DecidingArms(entries, target)| <= k < |arms| && arms[k].Named().Some? ==>
      || !CanHold(arms[k].Named().value, th)
      || Some(LookOf(arms[k])) == LayerFinal(entries, target)
      || exists h :: 0 <= h < k && Outranks(arms, h, k, th)
  }

  predicate ArmHolds(r: Rule, env: Environment) { r.Named().Some? && Met(r.Named().value, env) }

  lemma {:induction false} FirstIndex(rules: seq<Rule>, env: Environment) returns (k: nat)
    requires Colored(rules)
    ensures k <= |rules| && forall h :: 0 <= h < k ==> !ArmHolds(rules[h], env)
    ensures k < |rules| ==> ArmHolds(rules[k], env)
    ensures FirstHolding(rules, env) == if k < |rules| then Some(LookOf(rules[k])) else None
  {
    if rules == [] || ArmHolds(rules[0], env) {
      k := 0;
    } else {
      assert forall r :: r in rules[1..] ==> r in rules;
      k := FirstIndex(rules[1..], env);
      k := k + 1;
    }
  }

  lemma FirstOfTwo(a: seq<Rule>, b: seq<Rule>, env: Environment) returns (k: nat)
    requires Colored(a) && Colored(b)
    ensures k <= |a + b| && (k < |a + b| ==> ArmHolds((a + b)[k], env))
    ensures forall h :: 0 <= h < k ==> !ArmHolds((a + b)[h], env)
    ensures FirstHolding(a, env).Some? <==> k < |a|
    ensures k >= |a| ==> FirstHolding(b, env) == if k < |a + b| then Some(LookOf(b[k - |a|])) else None
  {
    hide FirstHolding, ArmHolds, LookOf;
    var d := FirstIndex(a, env);
    var e := FirstIndex(b, env);
    k := if d < |a| then d else d + e;
  }

  /** The arm that shows in an environment, by its rank. */
  lemma ShownByRank(entries: seq<(Entry, bool)>, env: Environment, target: Target) returns (k: nat)
    requires AllLower(entries)
    ensures Colored(Arms(entries, target))
    ensures var arms := Arms(entries, target);
            && k <= |arms| && (k < |arms| ==> ArmHolds(arms[k], env))
            && (forall h :: 0 <= h < k ==> !ArmHolds(arms[h], env))
            && (LayerShows(entries, env, target) == LastEntry(entries, env, target)
                <==> k < |DecidingArms(entries, target)| || k == |arms|
                     || Some(LookOf(arms[k])) == LayerFinal(entries, target))
  {
    hide FirstHolding, Arms, DecidingArms, EarlierArms, LastEntry, LayerShows, LayerFinal, AllLower, ArmHolds, LookOf,
      Colored;
    ArmsColored(entries, target);
    ArmsSplit(entries, target);
    LastEntryDecides(entries, env, target);
    NothingEarlier(entries, target);
    k := FirstOfTwo(DecidingArms(entries, target), EarlierArms(entries, target), env);
  }

  lemma UnshadowableReads(entries: seq<(Entry, bool)>, env: Environment, target: Target, th: Theory)
    requires AllLower(entries) && Unshadowable(entries, target, th) && Respects(env, th)
    ensures LayerShows(entries, env, target) == LastEntry(entries, env, target)
  {
    hide Arms, DecidingArms, LastEntry, LayerShows, LayerFinal, AllLower, LookOf, Met, Within, Respects, CanHold;
    var k := ShownByRank(entries, env, target);
    var arms := Arms(entries, target);
    if |DecidingArms(entries, target)| <= k < |arms| && Some(LookOf(arms[k])) != LayerFinal(entries, target) {
      MetCanHold(arms[k].Named().value, env, th);
      var h :| 0 <= h < k && Outranks(arms, h, k, th);
      MetWithin(arms[h].Named().value, arms[k].Named().value, env, th);
    }
  }

  /** An arm that can hold and that nothing outranks shows in its own minimal
      environment. */
  lemma ShadowableWitness(entries: seq<(Entry, bool)>, target: Target, k: nat, th: Theory)
    requires AllLower(entries) && Colored(Arms(entries, target)) && Sound(th)
    requires |DecidingArms(entries, target)| <= k < |Arms(entries, target)| && Arms(entries, target)[k].Named().Some?
    requires CanHold(Arms(entries, target)[k].Named().value, th)
    requires Some(LookOf(Arms(entries, target)[k])) != LayerFinal(entries, target)
    requires forall h :: 0 <= h < k ==> !Outranks(Arms(entries, target), h, k, th)
    ensures var env := Minimal(Arms(entries, target)[k].Named().value, th);
            Respects(env, th) && LayerShows(entries, env, target) != LastEntry(entries, env, target)
  {
    var arms := Arms(entries, target);
    hide Arms, DecidingArms, LastEntry, LayerShows, LayerFinal, AllLower, LookOf, Minimal, Respects, Outranks, ArmHolds,
      Sound, CanHold;
    MinimalRespects(arms[k].Named().value, th);
    FirstInMinimal(arms, k, th);
    var n := ShownByRank(entries, Minimal(arms[k].Named().value, th), target);
    assert n == k;
  }

  /** In the minimal environment of an arm nothing outranks, it holds and no arm
      before it does. */
  lemma FirstInMinimal(arms: seq<Rule>, k: nat, th: Theory)
    requires k < |arms| && arms[k].Named().Some? && Sound(th)
    requires forall h :: 0 <= h < k ==> !Outranks(arms, h, k, th)
    ensures ArmHolds(arms[k], Minimal(arms[k].Named().value, th))
    ensures forall h :: 0 <= h < k ==> !ArmHolds(arms[h], Minimal(arms[k].Named().value, th))
  {
    hide Met, Within, Minimal, Sound;
    var own := arms[k].Named().value;
    WithinSelf(own, th);
    MetInMinimal(own, own, th);
    forall h | 0 <= h < k ensures !ArmHolds(arms[h], Minimal(own, th)) {
      assert !Outranks(arms, h, k, th);
      if arms[h].Named().Some? { MetInMinimal(arms[h].Named().value, own, th); }
    }
  }

  lemma WithinSelf(c: Conditions, th: Theory)
    requires Sound(th)
    ensures Within(c, c, th)
  {
    forall x | Asks(c, x) ensures Follows(c, th, x) {
      assert th.implies(x, x);
    }
  }

  /** The configurations whose layers show what the documentation says in every
      environment there can be: exactly those in which no arm of an entry before
      the deciding one can show through. The gates and looks of the file, and
      what is known of the gates, decide it. */
  lemma DocumentedReading(entries: seq<(Entry, bool)>, target: Target, th: Theory)
    requires AllLower(entries) && Sound(th)
    ensures (forall env :: Respects(env, th) ==> LayerShows(entries, env, target) == LastEntry(entries, env, target))
            <==> Unshadowable(entries, target, th)
  {
    ArmsColored(entries, target);
    hide Arms, DecidingArms, LastEntry, LayerShows, LayerFinal, AllLower, LookOf, Outranks, CanHold, Sound, Respects;
    if Unshadowable(entries, target, th) {
      forall env | Respects(env, th) ensures LayerShows(entries, env, target) == LastEntry(entries, env, target) {
        UnshadowableReads(entries, env, target, th);
      }
    } else {
      var arms := Arms(entries, target);
      var k :| |DecidingArms(entries, target)| <= k < |arms| && arms[k].Named().Some?
        && CanHold(arms[k].Named().value, th) && Some(LookOf(arms[k])) != LayerFinal(entries, target)
        && !exists h :: 0 <= h < k && Outranks(arms, h, k, th);
      ShadowableWitness(entries, target, k, th);
    }
  }

  /** In particular: where no entry with an unconditional arm for a target comes
      after one with a conditional arm for it. */
  predicate ColorsComeFirst(entries: seq<(Entry, bool)>, target: Target) {
    forall i, k :: 0 <= i < k < |entries| && EndsUnconditionally(OwnArms(entries[k].0, target)) ==>
      forall r :: r in OwnArms(entries[i].0, target) ==> r.Named().None?
  }

  lemma {:induction false} EarlierUnconditional(entries: seq<(Entry, bool)>, target: Target)
    requires ColorsComeFirst(entries, target)
    ensures forall r :: r in EarlierArms(entries, target) ==> r.Named().None?
  {
    if entries != [] {
      var n := |entries| - 1;
      var init, own := entries[..n], OwnArms(entries[n].0, target);
      if EndsUnconditionally(own) {
        assert EarlierArms(entries, target) == Arms(init, target);
        ArmsUnconditional(init, target);
      } else {
        assert EarlierArms(entries, target) == EarlierArms(init, target);
        EarlierUnconditional(init, target);
      }
    }
  }

  lemma {:induction false} ArmsUnconditional(entries: seq<(Entry, bool)>, target: Target)
    requires forall i :: 0 <= i < |entries| ==> forall r :: r in OwnArms(entries[i].0, target) ==> r.Named().None?
    ensures forall r :: r in Arms(entries, target) ==> r.Named().None?
  {
    if entries != [] {
      ArmsUnconditional(entries[..|entries| - 1], target);
    }
  }

  lemma {:induction false} NoArmHolds(rules: seq<Rule>, env: Environment)
    requires Colored(rules) && forall r :: r in rules ==> r.Named().None?
    ensures FirstHolding(rules, env) == None
  {
    if rules != [] {
      assert forall r :: r in rules[1..] ==> r in rules;
      NoArmHolds(rules[1..], env);
    }
  }

  lemma ColorsFirstRead(entries: seq<(Entry, bool)>, env: Environment, target: Target)
    requires AllLower(entries) && ColorsComeFirst(entries, target)
    ensures LayerShows(entries, env, target) == LastEntry(entries, env, target)
  {
    hide FirstHolding, Arms, DecidingArms, EarlierArms, LastEntry, LayerShows, LayerFinal, AllLower;
    ArmsColored(entries, target);
    EarlierUnconditional(entries, target);
    NoArmHolds(EarlierArms(entries, target), env);
    LastEntryDecides(entries, env, target);
  }

  /** A broad entry with a rule, corrected by a later plain color: the rule
      still shows. */
  lemma LaterColorIsShadowed(env: Environment)
    requires env.holds(Battery, Gate(0))
    ensures var gate := NoConditions.(battery := Some(Gate(0)));
            var broad := Entry(Some([1, 2]), true, None, PlainStyle, [Rule(Some(10), PlainStyle, Some(gate))]);
            var specific := Entry(Some([2]), true, Some(Some(20)), PlainStyle, []);
            var entries := [(broad, false), (specific, false)];
            && AllLower(entries) && Shadowed(entries, env, 2)
            && LayerShows(entries, env, 2) == Some(Look(10, PlainStyle))
            && LastEntry(entries, env, 2) == Some(Look(20, PlainStyle))
  {
    var gate := NoConditions.(battery := Some(Gate(0)));
    var broad := Entry(Some([1, 2]), true, None, PlainStyle, [Rule(Some(10), PlainStyle, Some(gate))]);
    var specific := Entry(Some([2]), true, Some(Some(20)), PlainStyle, []);
    var entries := [(broad, false), (specific, false)];
    assert LightRules(broad) == [Rule(Some(10), PlainStyle, Some(gate))];
    assert LightRules(specific) == [Rule(Some(20), PlainStyle, None)];
    assert entries[..1] == [(broad, false)] && [(broad, false)][..0] == [];
    assert LayerArm([(broad, false)], env, 2) == Some(Look(10, PlainStyle));
    assert FirstHolding(LightRules(specific), env) == None by { assert LightRules(specific)[1..] == []; }
  }
}

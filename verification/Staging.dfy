/** The peripheral's transaction stager: packets collect in a hidden stage and
    become a snapshot only when a matching commit finds everything announced. */
module Staging {
  import opened Prelude
  import opened Boards
  import opened Lighting
  import opened Codec

  datatype Stage = Stage(
    generation: u8,
    snapshot: Snapshot,
    expectedOverlay: nat,
    expectedScenes: nat,
    expectedConditional: Option<nat>,
    wakeReceived: bool,
    contextReceived: bool,
    extensionReceived: bool,
    extensionOverlayReceived: bool,
    batteries: BatteryPair)
  {
    predicate Of(g: u8, r: u32) { generation == g && snapshot.revision == r }
  }

  datatype Staged = Staged(generation: u8, snapshot: Snapshot, batteries: BatteryPair)

  datatype StageResult = StageResult(stage: Option<Stage>, output: Option<Staged>)

  predicate AcceptedBegin(m: Message) {
    m.Begin? && m.cellCount <= LEDS_PER_HALF && m.sceneCount <= SCENE_CAPACITY
  }

  function FreshStage(m: Message): Stage
    requires m.Begin?
  {
    Stage(m.generation,
      Snapshot(m.revision, m.mutable, m.outputMode, 0, [], SceneTable(m.scenePolicy, []), [], DEFAULT_CONTEXT,
               m.sampleTimeMs, None, None, None, None),
      m.cellCount, m.sceneCount, None, false, false, false, false,
      BatteryPair(Unavailable, Unavailable))
  }

  predicate CanTakeCell(stage: Stage, cell: OverlayCell) {
    && |stage.snapshot.overlay| < stage.expectedOverlay
    && (forall held :: held in stage.snapshot.overlay ==> held.slot != cell.slot)
    && |stage.snapshot.overlay| < OVERLAY_CAPACITY
  }

  predicate CanTakeScene(stage: Stage, cell: SceneCell) {
    var cells := stage.snapshot.scenes.cells;
    && |cells| < stage.expectedScenes
    && (forall held :: held in cells ==> held.layer != cell.layer || held.slot != cell.slot)
    && |cells| < SCENE_CAPACITY
  }

  predicate CanTakeConditional(stage: Stage) {
    && stage.expectedConditional.Some?
    && |stage.snapshot.conditional| < stage.expectedConditional.value
    && |stage.snapshot.conditional| < SCENE_CAPACITY
  }

  predicate CommitValid(stage: Stage, m: Message)
    requires m.Commit?
  {
    && stage.Of(m.generation, m.revision)
    && stage.wakeReceived && stage.contextReceived
    && stage.extensionReceived && stage.extensionOverlayReceived
    && stage.expectedOverlay == m.cellCount
    && stage.expectedScenes == m.sceneCount
    && |stage.snapshot.overlay| == stage.expectedOverlay
    && |stage.snapshot.scenes.cells| == stage.expectedScenes
    && (stage.expectedConditional.Some? ==> |stage.snapshot.conditional| == stage.expectedConditional.value)
  }

  /** The last conditional cell with the late gates filled in. */
  function Amended(cells: seq<ConditionalCell>, connection: Option<ConnectionCondition>,
                   effects: Option<EffectsCondition>): (r: seq<ConditionalCell>)
    requires cells != []
    ensures |r| == |cells|
  {
    var last := cells[|cells| - 1];
    cells[..|cells| - 1]
    + [last.(conditions := last.conditions.(connection := connection, effects := effects))]
  }

  predicate IsTransactionMessage(m: Message) {
    m.Begin? || m.WakeLayers? || m.Context? || m.Extension? || m.ExtensionOverlay? || m.Cell?
    || m.TableCell? || m.ConditionalBegin? || m.Conditional? || m.ConditionalExt? || m.Commit?
  }

  /** One non-Begin transaction message against a live stage of the same
      transaction; `None` aborts. */
  function Fill(stage: Stage, m: Message): Option<Stage>
    requires IsTransactionMessage(m) && !m.Begin? && !m.Commit?
  {
    var s := stage.snapshot;
    match m
    case WakeLayers(_, _, w) =>
      Some(stage.(snapshot := s.(wakeLayers := w), wakeReceived := true))
    case Context(_, _, c, b) =>
      Some(stage.(snapshot := s.(context := c.ApplyTo(s.context)), batteries := b, contextReceived := true))
    case Extension(_, _, e, p) =>
      Some(stage.(snapshot := s.(extension := e, extensionParams := p), extensionReceived := true))
    case ExtensionOverlay(_, _, overlay, p) =>
      Some(stage.(snapshot := s.(extensionLayers := Some(ExtensionLayers(overlay)), extensionOverlayParams := p),
                  extensionOverlayReceived := true))
    case Cell(_, _, cell) =>
      if CanTakeCell(stage, cell) then Some(stage.(snapshot := s.(overlay := s.overlay + [cell]))) else None
    case TableCell(_, _, cell) =>
      if CanTakeScene(stage, cell)
      then Some(stage.(snapshot := s.(scenes := s.scenes.(cells := s.scenes.cells + [cell])))) else None
    case ConditionalBegin(_, _, count) =>
      if count <= SCENE_CAPACITY
      then Some(stage.(expectedConditional := Some(count), snapshot := s.(conditional := []))) else None
    case Conditional(_, _, cell) =>
      if CanTakeConditional(stage)
      then Some(stage.(snapshot := s.(conditional := s.conditional + [cell]))) else None
    case ConditionalExt(_, _, connection, effects) =>
      if s.conditional == [] then None
      else Some(stage.(snapshot := s.(conditional := Amended(s.conditional, connection, effects))))
  }

  function StageStep(stage: Option<Stage>, m: Message): StageResult {
    if !IsTransactionMessage(m) then StageResult(stage, None)
    else if m.Begin? then
      if AcceptedBegin(m) then StageResult(Some(FreshStage(m)), None) else StageResult(stage, None)
    else if stage.None? || !stage.value.Of(m.generation, m.revision) then StageResult(None, None)
    else if m.Commit? then
      if CommitValid(stage.value, m)
      then StageResult(None, Some(Staged(stage.value.generation, stage.value.snapshot, stage.value.batteries)))
      else StageResult(None, None)
    else StageResult(Fill(stage.value, m), None)
  }

  /** The stager as the firmware runs it, updating its one field in place. */
  class SnapshotStage {
    var stage: Option<Stage>

    constructor ()
      ensures stage == None
    {
      stage := None;
    }

    method Apply(m: Message) returns (output: Option<Staged>)
      modifies this
      ensures StageResult(stage, output) == StageStep(old(stage), m)
    {
      output := None;
      match m {
        case Begin(_, _, cells, scenes, _, _, _, _) =>
          if cells <= LEDS_PER_HALF && scenes <= SCENE_CAPACITY {
            stage := Some(FreshStage(m));
          }
        case WakeLayers(g, r, w) =>
          if stage.None? || !stage.value.Of(g, r) {
            stage := None;
          } else {
            var s := stage.value;
            stage := Some(s.(snapshot := s.snapshot.(wakeLayers := w), wakeReceived := true));
          }
        case Context(g, r, c, b) =>
          if stage.None? || !stage.value.Of(g, r) {
            stage := None;
            return;
          }
          var s := stage.value;
          stage := Some(s.(snapshot := s.snapshot.(context := c.ApplyTo(s.snapshot.context)),
                           batteries := b, contextReceived := true));
        case Extension(g, r, e, p) =>
          if stage.None? || !stage.value.Of(g, r) {
            stage := None;
            return;
          }
          var s := stage.value;
          stage := Some(s.(snapshot := s.snapshot.(extension := e, extensionParams := p),
                           extensionReceived := true));
        case ExtensionOverlay(g, r, overlay, p) =>
          if stage.None? || !stage.value.Of(g, r) {
            stage := None;
            return;
          }
          var s := stage.value;
          stage := Some(s.(snapshot := s.snapshot.(extensionLayers := Some(ExtensionLayers(overlay)),
                                                   extensionOverlayParams := p),
                           extensionOverlayReceived := true));
        case Cell(g, r, cell) =>
          if stage.None? { return; }
          var s := stage.value;
          var held := HoldsSlot(s.snapshot.overlay, cell.slot);
          if !s.Of(g, r) || |s.snapshot.overlay| >= s.expectedOverlay || held
             || |s.snapshot.overlay| >= OVERLAY_CAPACITY {
            stage := None;
          } else {
            stage := Some(s.(snapshot := s.snapshot.(overlay := s.snapshot.overlay + [cell])));
          }
        case TableCell(g, r, cell) =>
          if stage.None? { return; }
          var s := stage.value;
          var cells := s.snapshot.scenes.cells;
          var held := HoldsKey(cells, cell.layer, cell.slot);
          if !s.Of(g, r) || |cells| >= s.expectedScenes || held || |cells| >= SCENE_CAPACITY {
            stage := None;
          } else {
            stage := Some(s.(snapshot := s.snapshot.(scenes := s.snapshot.scenes.(cells := cells + [cell]))));
          }
        case ConditionalBegin(g, r, count) =>
          if stage.None? || !stage.value.Of(g, r) || count > SCENE_CAPACITY {
            stage := None;
          } else {
            var s := stage.value;
            stage := Some(s.(expectedConditional := Some(count), snapshot := s.snapshot.(conditional := [])));
          }
        case Conditional(g, r, cell) =>
          if stage.None? || !stage.value.Of(g, r) || !CanTakeConditional(stage.value) {
            stage := None;
          } else {
            var s := stage.value;
            stage := Some(s.(snapshot := s.snapshot.(conditional := s.snapshot.conditional + [cell])));
          }
        case ConditionalExt(g, r, connection, effects) =>
          if stage.None? || !stage.value.Of(g, r) || stage.value.snapshot.conditional == [] {
            stage := None;
          } else {
            var s := stage.value;
            stage := Some(s.(snapshot :=
              s.snapshot.(conditional := Amended(s.snapshot.conditional, connection, effects))));
          }
        case Commit(_, _, _, _) =>
          if stage.Some? && CommitValid(stage.value, m) {
            output := Some(Staged(stage.value.generation, stage.value.snapshot, stage.value.batteries));
          }
          stage := None;
        case _ =>
      }
    }

    method Reset()
      modifies this
      ensures stage == None
    {
      stage := None;
    }
  }

  method HoldsSlot(cells: seq<OverlayCell>, slot: u16) returns (held: bool)
    ensures held <==> exists c :: c in cells && c.slot == slot
  {
    held := false;
    for i := 0 to |cells|
      invariant held <==> exists c :: c in cells[..i] && c.slot == slot
    {
      assert cells[..i + 1] == cells[..i] + [cells[i]];
      if cells[i].slot == slot { held := true; }
    }
    assert cells[..|cells|] == cells;
  }

  method HoldsKey(cells: seq<SceneCell>, layer: u8, slot: u16) returns (held: bool)
    ensures held <==> exists c :: c in cells && c.layer == layer && c.slot == slot
  {
    held := false;
    for i := 0 to |cells|
      invariant held <==> exists c :: c in cells[..i] && c.layer == layer && c.slot == slot
    {
      assert cells[..i + 1] == cells[..i] + [cells[i]];
      if cells[i].layer == layer && cells[i].slot == slot { held := true; }
    }
    assert cells[..|cells|] == cells;
  }

  // ---- Whole sequences of messages ----

  datatype FeedResult = FeedResult(stage: Option<Stage>, outputs: seq<Staged>)

  /** Every message in turn, and every snapshot that came out. */
  function Feed(stage: Option<Stage>, ms: seq<Message>): FeedResult {
    if ms == [] then FeedResult(stage, [])
    else
      var before := Feed(stage, ms[..|ms| - 1]);
      var after := StageStep(before.stage, ms[|ms| - 1]);
      FeedResult(after.stage, if after.output.None? then before.outputs else before.outputs + [after.output.value])
  }

  lemma {:induction false} FeedAppend(stage: Option<Stage>, a: seq<Message>, b: seq<Message>)
    ensures Feed(stage, a + b) == FeedResult(
      Feed(Feed(stage, a).stage, b).stage,
      Feed(stage, a).outputs + Feed(Feed(stage, a).stage, b).outputs)
  {
    if b == [] {
      assert a + b == a;
    } else {
      assert (a + b)[..|a + b| - 1] == a + b[..|b| - 1];
      FeedAppend(stage, a, b[..|b| - 1]);
    }
  }

  lemma FeedOne(stage: Option<Stage>, m: Message)
    ensures Feed(stage, [m]).stage == StageStep(stage, m).stage
    ensures Feed(stage, [m]).outputs == match StageStep(stage, m).output { case None => [] case Some(o) => [o] }
  {
    assert [m][..0] == [];
  }

  lemma FeedSnoc(stage: Option<Stage>, ms: seq<Message>, m: Message)
    ensures Feed(stage, ms + [m]).stage == StageStep(Feed(stage, ms).stage, m).stage
    ensures Feed(stage, ms + [m]).outputs == Feed(stage, ms).outputs
              + match StageStep(Feed(stage, ms).stage, m).output { case None => [] case Some(o) => [o] }
  {
    assert (ms + [m])[..|ms|] == ms;
  }

  // ---- What every run keeps ----

  /** Never more than announced, never more than the tables hold, no key twice. */
  predicate WellStaged(stage: Stage) {
    && |stage.snapshot.overlay| <= stage.expectedOverlay <= LEDS_PER_HALF
    && |stage.snapshot.scenes.cells| <= stage.expectedScenes <= SCENE_CAPACITY
    && (match stage.expectedConditional
        case None => stage.snapshot.conditional == []
        case Some(n) => |stage.snapshot.conditional| <= n <= SCENE_CAPACITY)
    && UniqueOverlay(stage.snapshot.overlay)
    && UniqueScenes(stage.snapshot.scenes.cells)
  }

  lemma StepKeepsWellStaged(stage: Option<Stage>, m: Message)
    requires stage.Some? ==> WellStaged(stage.value)
    ensures var after := StageStep(stage, m).stage; after.Some? ==> WellStaged(after.value)
    ensures var out := StageStep(stage, m).output;
            out.Some? ==>
              && UniqueOverlay(out.value.snapshot.overlay)
              && UniqueScenes(out.value.snapshot.scenes.cells)
              && |out.value.snapshot.overlay| <= LEDS_PER_HALF
              && |out.value.snapshot.scenes.cells| <= SCENE_CAPACITY
              && |out.value.snapshot.conditional| <= SCENE_CAPACITY
  {
  }

  /** Whatever arrives, in whatever order, the stage stays well formed. */
  lemma {:induction false} AnyRunWellStaged(ms: seq<Message>)
    ensures var after := Feed(None, ms).stage; after.Some? ==> WellStaged(after.value)
  {
    if ms != [] {
      AnyRunWellStaged(ms[..|ms| - 1]);
      StepKeepsWellStaged(Feed(None, ms[..|ms| - 1]).stage, ms[|ms| - 1]);
    }
  }

  // ---- Transaction purity ----

  /** Position of the latest Begin the stager accepted, or -1. */
  function LatestBegin(ms: seq<Message>): (j: int)
    ensures -1 <= j < |ms|
    ensures j >= 0 ==> AcceptedBegin(ms[j])
    ensures forall i :: j < i < |ms| ==> !AcceptedBegin(ms[i])
  {
    if ms == [] then -1
    else if AcceptedBegin(ms[|ms| - 1]) then |ms| - 1
    else LatestBegin(ms[..|ms| - 1])
  }

  /** The overlay cells among some messages, in order of arrival. */
  function CellsIn(ms: seq<Message>): seq<OverlayCell> {
    if ms == [] then []
    else CellsIn(ms[..|ms| - 1]) + (if ms[|ms| - 1].Cell? then [ms[|ms| - 1].cell] else [])
  }

  function SceneCellsIn(ms: seq<Message>): seq<SceneCell> {
    if ms == [] then []
    else SceneCellsIn(ms[..|ms| - 1]) + (if ms[|ms| - 1].TableCell? then [ms[|ms| - 1].sceneCell] else [])
  }

  /** The conditional cells since the latest announcement, with late gates. */
  function ConditionalCellsIn(ms: seq<Message>): seq<ConditionalCell> {
    if ms == [] then []
    else
      var held := ConditionalCellsIn(ms[..|ms| - 1]);
      var m := ms[|ms| - 1];
      if m.ConditionalBegin? then []
      else if m.Conditional? then held + [m.conditionalCell]
      else if m.ConditionalExt? && held != [] then Amended(held, m.connection, m.effects)
      else held
  }

  function LatestContext(ms: seq<Message>): (r: Option<Message>)
    ensures r.Some? ==> r.value in ms && r.value.Context?
  {
    if ms == [] then None
    else if ms[|ms| - 1].Context? then Some(ms[|ms| - 1])
    else LatestContext(ms[..|ms| - 1])
  }

  function LatestWake(ms: seq<Message>): (r: Option<Message>)
    ensures r.Some? ==> r.value in ms && r.value.WakeLayers?
  {
    if ms == [] then None
    else if ms[|ms| - 1].WakeLayers? then Some(ms[|ms| - 1])
    else LatestWake(ms[..|ms| - 1])
  }

  function LatestExtension(ms: seq<Message>): (r: Option<Message>)
    ensures r.Some? ==> r.value in ms && r.value.Extension?
  {
    if ms == [] then None
    else if ms[|ms| - 1].Extension? then Some(ms[|ms| - 1])
    else LatestExtension(ms[..|ms| - 1])
  }

  function LatestExtensionOverlay(ms: seq<Message>): (r: Option<Message>)
    ensures r.Some? ==> r.value in ms && r.value.ExtensionOverlay?
  {
    if ms == [] then None
    else if ms[|ms| - 1].ExtensionOverlay? then Some(ms[|ms| - 1])
    else LatestExtensionOverlay(ms[..|ms| - 1])
  }

  /** `snapshot` holds exactly what `begin` and the messages after it said. */
  ghost predicate BuiltFrom(stage: Stage, begin: Message, tail: seq<Message>)
    requires begin.Begin?
  {
    var s := stage.snapshot;
    && stage.generation == begin.generation
    && s.revision == begin.revision && s.mutable == begin.mutable && s.outputMode == begin.outputMode
    && s.sampleTimeMs == begin.sampleTimeMs && s.scenes.policy == begin.scenePolicy
    && stage.expectedOverlay == begin.cellCount && stage.expectedScenes == begin.sceneCount
    && s.overlay == CellsIn(tail)
    && s.scenes.cells == SceneCellsIn(tail)
    && s.conditional == ConditionalCellsIn(tail)
    && (stage.wakeReceived <==> LatestWake(tail).Some?)
    && (stage.wakeReceived ==> s.wakeLayers == LatestWake(tail).value.wakeLayers)
    && (stage.contextReceived <==> LatestContext(tail).Some?)
    && (stage.contextReceived ==>
         && s.context == LatestContext(tail).value.context.ApplyTo(DEFAULT_CONTEXT)
         && stage.batteries == LatestContext(tail).value.batteries)
    && (!stage.contextReceived ==> s.context == DEFAULT_CONTEXT)
    && (stage.extensionReceived <==> LatestExtension(tail).Some?)
    && (stage.extensionReceived ==>
         && s.extension == LatestExtension(tail).value.extension
         && s.extensionParams == LatestExtension(tail).value.params)
    && (stage.extensionOverlayReceived <==> LatestExtensionOverlay(tail).Some?)
    && (stage.extensionOverlayReceived ==>
         && s.extensionLayers == Some(ExtensionLayers(LatestExtensionOverlay(tail).value.overlay))
         && s.extensionOverlayParams == LatestExtensionOverlay(tail).value.params)
  }

  /** No message of another transaction, and no commit, among these. */
  predicate OneTransaction(ms: seq<Message>, g: u8, r: u32) {
    forall m :: m in ms && IsTransactionMessage(m) && !m.Begin? ==>
      m.generation == g && m.revision == r && !m.Commit?
  }

  lemma ContentsSnoc(tail: seq<Message>, m: Message)
    ensures CellsIn(tail + [m]) == CellsIn(tail) + (if m.Cell? then [m.cell] else [])
    ensures SceneCellsIn(tail + [m]) == SceneCellsIn(tail) + (if m.TableCell? then [m.sceneCell] else [])
    ensures var held := ConditionalCellsIn(tail);
            ConditionalCellsIn(tail + [m]) ==
            if m.ConditionalBegin? then []
            else if m.Conditional? then held + [m.conditionalCell]
            else if m.ConditionalExt? && held != [] then Amended(held, m.connection, m.effects)
            else held
    ensures LatestWake(tail + [m]) == if m.WakeLayers? then Some(m) else LatestWake(tail)
    ensures LatestContext(tail + [m]) == if m.Context? then Some(m) else LatestContext(tail)
    ensures LatestExtension(tail + [m]) == if m.Extension? then Some(m) else LatestExtension(tail)
    ensures LatestExtensionOverlay(tail + [m]) ==
            if m.ExtensionOverlay? then Some(m) else LatestExtensionOverlay(tail)
  {
    assert (tail + [m])[..|tail|] == tail;
  }

  lemma StepStaysPure(stage: Stage, begin: Message, tail: seq<Message>, m: Message)
    requires begin.Begin? && BuiltFrom(stage, begin, tail)
    requires !AcceptedBegin(m)
    ensures var after := StageStep(Some(stage), m).stage;
            after.Some? ==> BuiltFrom(after.value, begin, tail + [m])
  {
    hide CellsIn, SceneCellsIn, ConditionalCellsIn, CommitValid;
    hide LatestWake, LatestContext, LatestExtension, LatestExtensionOverlay, UniqueOverlay, UniqueScenes;
    ContentsSnoc(tail, m);
  }

  /** A stage survives only messages of its own transaction. */
  lemma SurvivorsMatch(stage: Option<Stage>, m: Message)
    requires !AcceptedBegin(m) && StageStep(stage, m).stage.Some?
    ensures stage.Some?
    ensures StageStep(stage, m).stage.value.Of(stage.value.generation, stage.value.snapshot.revision)
    ensures OneTransaction([m], stage.value.generation, stage.value.snapshot.revision)
  {
  }

  lemma OneTransactionAppend(a: seq<Message>, b: seq<Message>, g: u8, r: u32)
    ensures OneTransaction(a + b, g, r) <==> OneTransaction(a, g, r) && OneTransaction(b, g, r)
  {
    assert forall m :: m in a + b <==> m in a || m in b;
  }

  /** When a live stage survives a message: one that is no part of any
      transaction, a Begin whatever it announces, or one of its own transaction
      that finds its place announced, free and within the tables. */
  lemma SurvivesExactly(stage: Stage, m: Message)
    ensures var s := stage.snapshot;
            StageStep(Some(stage), m).stage.Some? <==>
              || m.Ack? || m.EffectHit? || m.ContextUpdate? || m.Attestation? || m.ReplicaProbe? || m.StatusRequest?
              || m.StatusReport? || m.FrameChunkRequest? || m.FrameChunk? || m.TransportStatus? || m.DebugTrace?
              || m.DebugPanicLoc? || m.Begin?
              || (&& !m.Commit? && m.generation == stage.generation && m.revision == s.revision
                  && (m.Cell? ==>
                       && |s.overlay| < Min(stage.expectedOverlay, OVERLAY_CAPACITY)
                       && forall c :: c in s.overlay ==> c.slot != m.cell.slot)
                  && (m.TableCell? ==>
                       && |s.scenes.cells| < Min(stage.expectedScenes, SCENE_CAPACITY)
                       && forall c :: c in s.scenes.cells ==>
                            c.layer != m.sceneCell.layer || c.slot != m.sceneCell.slot)
                  && (m.ConditionalBegin? ==> m.cellCount <= SCENE_CAPACITY)
                  && (m.Conditional? ==>
                       && stage.expectedConditional.Some?
                       && |s.conditional| < Min(stage.expectedConditional.value, SCENE_CAPACITY))
                  && (m.ConditionalExt? ==> s.conditional != []))
  {
  }

  /** What such a message leaves: the stage as it was for one that is no part of
      a transaction and for a Begin that announces too much, and an empty one
      for any other Begin. Without a stage only that Begin does anything. */
  lemma BeginsExactly(stage: Option<Stage>, m: Message)
    ensures m.Begin? && (m.cellCount > LEDS_PER_HALF || m.sceneCount > SCENE_CAPACITY) ==>
      StageStep(stage, m) == StageResult(stage, None)
    ensures m.Begin? && m.cellCount <= LEDS_PER_HALF && m.sceneCount <= SCENE_CAPACITY ==>
      && StageStep(stage, m).stage.Some? && StageStep(stage, m).output.None?
      && BuiltFrom(StageStep(stage, m).stage.value, m, [])
    ensures stage.None? && !m.Begin? ==> StageStep(stage, m) == StageResult(None, None)
    ensures !IsTransactionMessage(m) ==> StageStep(stage, m) == StageResult(stage, None)
  {
  }

  /** A snapshot comes out exactly for a Commit of the stage's own transaction
      that finds every section received and every count as announced; it is
      what the stage holds. */
  lemma CommitsExactly(stage: Stage, m: Message)
    ensures var s := stage.snapshot; var output := StageStep(Some(stage), m).output;
            && (output.Some? <==>
                 && m.Commit? && m.generation == stage.generation && m.revision == s.revision
                 && stage.wakeReceived && stage.contextReceived
                 && stage.extensionReceived && stage.extensionOverlayReceived
                 && |s.overlay| == stage.expectedOverlay == m.cellCount
                 && |s.scenes.cells| == stage.expectedScenes == m.sceneCount
                 && (stage.expectedConditional.Some? ==> |s.conditional| == stage.expectedConditional.value))
            && (output.Some? ==> output.value == Staged(m.generation, s, stage.batteries))
  {
  }

  /** A live stage is a function of the messages since its Begin, and all of
      those belong to its transaction. */
  lemma {:induction false} StageIsPure(ms: seq<Message>)
    requires Feed(None, ms).stage.Some?
    ensures var stage := Feed(None, ms).stage.value;
            var j := LatestBegin(ms);
            && j >= 0
            && OneTransaction(ms[j + 1..], stage.generation, stage.snapshot.revision)
            && BuiltFrom(stage, ms[j], ms[j + 1..])
  {
    var init, m := ms[..|ms| - 1], ms[|ms| - 1];
    var j := LatestBegin(ms);
    if AcceptedBegin(m) {
      assert ms[j + 1..] == [];
    } else {
      var stage, before := Feed(None, ms).stage.value, Feed(None, init).stage;
      SurvivorsMatch(before, m);
      StageIsPure(init);
      hide StageStep, OneTransaction, BuiltFrom, Feed;
      var tail := init[j + 1..];
      assert ms[j] == init[j] && ms[j + 1..] == tail + [m];
      StepStaysPure(before.value, ms[j], tail, m);
      OneTransactionAppend(tail, [m], stage.generation, stage.snapshot.revision);
    }
  }

  /** Purity over every message sequence, however dropped, duplicated,
      reordered or interleaved: a snapshot that comes out was built from the
      messages between the latest accepted Begin and the Commit, every one of
      them of the snapshot's own generation and revision. */
  lemma TransactionPurity(ms: seq<Message>, m: Message)
    requires StageStep(Feed(None, ms).stage, m).output.Some?
    ensures m.Commit?
    ensures var out := StageStep(Feed(None, ms).stage, m).output.value;
            var j := LatestBegin(ms);
            && m.generation == out.generation && m.revision == out.snapshot.revision
            && j >= 0
            && OneTransaction(ms[j + 1..], out.generation, out.snapshot.revision)
            && BuiltFrom(Feed(None, ms).stage.value, ms[j], ms[j + 1..])
            && out == Staged(Feed(None, ms).stage.value.generation,
                             Feed(None, ms).stage.value.snapshot, Feed(None, ms).stage.value.batteries)
            && |CellsIn(ms[j + 1..])| == m.cellCount
            && |SceneCellsIn(ms[j + 1..])| == m.sceneCount
            && LatestWake(ms[j + 1..]).Some? && LatestContext(ms[j + 1..]).Some?
            && LatestExtension(ms[j + 1..]).Some? && LatestExtensionOverlay(ms[j + 1..]).Some?
            && UniqueOverlay(out.snapshot.overlay) && UniqueScenes(out.snapshot.scenes.cells)
  {
    StageIsPure(ms);
    AnyRunWellStaged(ms);
  }
}

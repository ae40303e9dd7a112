/** Loss safety: what a lossy transaction can and cannot become. */
module LossSafety {
  import opened Prelude
  import opened Boards
  import opened Lighting
  import opened Codec
  import opened CodecProofs
  import opened Staging
  import opened Transaction
  import opened Loss

  /** The snapshots a central can queue: distinct right-half keys, counts in range. */
  predicate Queueable(s: Snapshot) {
    && CountsInRange(s)
    && UniqueOverlay(RightOverlay(s.overlay))
    && UniqueScenes(RightScenes(s.scenes.cells))
  }

  datatype Heard = Heard(wake: bool, context: bool, extension: bool, overlay: bool)

  function ExtensionOverlayOf(s: Snapshot): Option<u8> {
    match s.extensionLayers { case None => None case Some(layers) => layers.overlay }
  }

  /** The stage of a transaction after some of its packets. */
  function StageFor(g: u8, s: Snapshot, b: BatteryPair, h: Heard, overlay: seq<OverlayCell>, scenes: seq<SceneCell>,
                    announced: bool, conditional: seq<ConditionalCell>): Stage
  {
    var counts := SnapshotCounts(s);
    Stage(g,
      Snapshot(s.revision, s.mutable, s.outputMode, if h.wake then s.wakeLayers else 0,
               overlay, SceneTable(s.scenes.policy, scenes), conditional,
               if h.context then Replicated(s.context).ApplyTo(DEFAULT_CONTEXT) else DEFAULT_CONTEXT,
               s.sampleTimeMs,
               if h.extension then s.extension else None,
               if h.overlay then Some(ExtensionLayers(ExtensionOverlayOf(s))) else None,
               if h.extension then s.extensionParams else None,
               if h.overlay then s.extensionOverlayParams else None),
      counts.overlay, counts.scenes, if announced then Some(counts.conditional) else None,
      h.wake, h.context, h.extension, h.overlay,
      if h.context then b else BatteryPair(Unavailable, Unavailable))
  }

  function Quiet(stage: Stage): FeedResult { FeedResult(Some(stage), []) }

  lemma QuietFeeds(stage: Stage)
    ensures Quiet(stage).stage == Some(stage) && Quiet(stage).outputs == []
  {
  }

  // ---- Prologue ----

  lemma FeedSetting(g: u8, s: Snapshot, b: BatteryPair, h: Heard, part: seq<Message>, k: nat)
    requires 1 <= k <= 4
    requires part == [] || part == [Prologue(g, s, b)[k]]
    requires k == 1 ==> !h.wake
    requires k == 2 ==> !h.context
    requires k == 3 ==> !h.extension
    requires k == 4 ==> !h.overlay
    ensures var heard := part != [];
            var after := if k == 1 then h.(wake := heard)
                         else if k == 2 then h.(context := heard)
                         else if k == 3 then h.(extension := heard)
                         else h.(overlay := heard);
            Feed(Some(StageFor(g, s, b, h, [], [], false, [])), part)
            == Quiet(StageFor(g, s, b, after, [], [], false, []))
  {
    hide RightOverlay, RightScenes, RightConditional;
    if part != [] {
      FeedOne(Some(StageFor(g, s, b, h, [], [], false, [])), Prologue(g, s, b)[k]);
    }
  }

  lemma FeedHeard(start: Option<Stage>, m0: seq<Message>, m1: seq<Message>, m2: seq<Message>, m3: seq<Message>,
                  m4: seq<Message>, g: u8, s: Snapshot, b: BatteryPair)
    requires var p := Prologue(g, s, b);
             && m0 == [p[0]] && (m1 == [] || m1 == [p[1]]) && (m2 == [] || m2 == [p[2]])
             && (m3 == [] || m3 == [p[3]]) && (m4 == [] || m4 == [p[4]])
    requires CountsInRange(s)
    ensures Feed(start, m0 + m1 + m2 + m3 + m4)
            == Quiet(StageFor(g, s, b, Heard(m1 != [], m2 != [], m3 != [], m4 != []), [], [], false, []))
  {
    var none := Heard(false, false, false, false);
    BeginHeard(start, g, s, b);
    hide *;
    var h := Heard(m1 != [], m2 != [], m3 != [], m4 != []);
    FeedSetting(g, s, b, none, m1, 1);
    FeedSetting(g, s, b, none.(wake := h.wake), m2, 2);
    FeedSetting(g, s, b, none.(wake := h.wake, context := h.context), m3, 3);
    FeedSetting(g, s, b, h.(overlay := false), m4, 4);
    FeedAppend(start, m0, m1);
    FeedAppend(start, m0 + m1, m2);
    FeedAppend(start, m0 + m1 + m2, m3);
    FeedAppend(start, m0 + m1 + m2 + m3, m4);
    QuietFeeds(StageFor(g, s, b, none, [], [], false, []));
    QuietFeeds(StageFor(g, s, b, none.(wake := h.wake), [], [], false, []));
    QuietFeeds(StageFor(g, s, b, none.(wake := h.wake, context := h.context), [], [], false, []));
    QuietFeeds(StageFor(g, s, b, h.(overlay := false), [], [], false, []));
  }

  lemma BeginHeard(start: Option<Stage>, g: u8, s: Snapshot, b: BatteryPair)
    requires CountsInRange(s)
    ensures Feed(start, [Prologue(g, s, b)[0]])
            == Quiet(StageFor(g, s, b, Heard(false, false, false, false), [], [], false, []))
  {
    hide Feed, RightOverlay, RightScenes, RightConditional;
    FeedOne(start, Prologue(g, s, b)[0]);
  }

  lemma SplitPrologue(part: seq<Message>, p: seq<Message>)
    returns (m0: seq<Message>, m1: seq<Message>, m2: seq<Message>, m3: seq<Message>, m4: seq<Message>)
    requires |p| == 5 && Subsequence(part, p)
    ensures part == m0 + m1 + m2 + m3 + m4
    ensures m0 == [] || m0 == [p[0]]
    ensures m1 == [] || m1 == [p[1]]
    ensures m2 == [] || m2 == [p[2]]
    ensures m3 == [] || m3 == [p[3]]
    ensures m4 == [] || m4 == [p[4]]
  {
    assert p == [p[0]] + [p[1]] + [p[2]] + [p[3]] + [p[4]];
    var r4, r3, r2;
    r4, m4 := SubsequenceSplit(part, [p[0]] + [p[1]] + [p[2]] + [p[3]], [p[4]]);
    r3, m3 := SubsequenceSplit(r4, [p[0]] + [p[1]] + [p[2]], [p[3]]);
    r2, m2 := SubsequenceSplit(r3, [p[0]] + [p[1]], [p[2]]);
    m0, m1 := SubsequenceSplit(r2, [p[0]], [p[1]]);
    SubsequenceOfOne(m0, p[0]);
    SubsequenceOfOne(m1, p[1]);
    SubsequenceOfOne(m2, p[2]);
    SubsequenceOfOne(m3, p[3]);
    SubsequenceOfOne(m4, p[4]);
  }

  lemma FramedPrologue(g: u8, s: Snapshot, b: BatteryPair)
    ensures |Prologue(g, s, b)| == 5
  {
  }

  /** The part that starts with the Begin kept the Begin. */
  lemma LeadingPart(part: seq<Message>, p: seq<Message>, m0: seq<Message>, m1: seq<Message>, m2: seq<Message>,
                    m3: seq<Message>, m4: seq<Message>)
    requires |p| == 5 && !p[1].Begin? && !p[2].Begin? && !p[3].Begin? && !p[4].Begin?
    requires part == m0 + m1 + m2 + m3 + m4 && part != [] && part[0].Begin?
    requires m0 == [] || m0 == [p[0]]
    requires m1 == [] || m1 == [p[1]]
    requires m2 == [] || m2 == [p[2]]
    requires m3 == [] || m3 == [p[3]]
    requires m4 == [] || m4 == [p[4]]
    ensures m0 == [p[0]]
  {
    var rest := m1 + m2 + m3 + m4;
    assert part == m0 + rest;
    assert forall m :: m in rest ==> !m.Begin?;
    assert m0 == [] ==> part == rest;
  }

  lemma FeedPrologue(start: Option<Stage>, part: seq<Message>, g: u8, s: Snapshot, b: BatteryPair)
    returns (h: Heard)
    requires CountsInRange(s)
    requires Subsequence(part, Prologue(g, s, b)) && part != [] && part[0].Begin?
    ensures Feed(start, part) == Quiet(StageFor(g, s, b, h, [], [], false, []))
    ensures |part| == 1 + BoolByte(h.wake) + BoolByte(h.context) + BoolByte(h.extension) + BoolByte(h.overlay)
  {
    var p := Prologue(g, s, b);
    assert p[0].Begin? && !p[1].Begin? && !p[2].Begin? && !p[3].Begin? && !p[4].Begin?;
    FramedPrologue(g, s, b);
    hide Prologue, StageFor, Feed, Subsequence;
    var m0, m1, m2, m3, m4 := SplitPrologue(part, p);
    h := Heard(m1 != [], m2 != [], m3 != [], m4 != []);
    LeadingPart(part, p, m0, m1, m2, m3, m4);
    FeedHeard(start, m0, m1, m2, m3, m4, g, s, b);
  }

  // ---- Overlay and scene cells ----

  lemma {:induction false} SubsequenceUniqueOverlay(sub: seq<OverlayCell>, cells: seq<OverlayCell>)
    requires Subsequence(sub, cells) && UniqueOverlay(cells)
    ensures UniqueOverlay(sub)
    ensures forall c :: c in sub ==> c in cells
  {
    if sub != [] {
      var rest, init := sub[..|sub| - 1], cells[..|cells| - 1];
      if Subsequence(sub, init) {
        SubsequenceUniqueOverlay(sub, init);
      } else {
        SubsequenceUniqueOverlay(rest, init);
        assert sub == rest + [sub[|sub| - 1]];
        forall i | 0 <= i < |rest| ensures sub[i].slot != sub[|sub| - 1].slot {
          assert sub[i] in init;
        }
      }
    }
  }

  lemma {:induction false} SubsequenceUniqueScenes(sub: seq<SceneCell>, cells: seq<SceneCell>)
    requires Subsequence(sub, cells) && UniqueScenes(cells)
    ensures UniqueScenes(sub)
    ensures forall c :: c in sub ==> c in cells
  {
    if sub != [] {
      var rest, init := sub[..|sub| - 1], cells[..|cells| - 1];
      if Subsequence(sub, init) {
        SubsequenceUniqueScenes(sub, init);
      } else {
        SubsequenceUniqueScenes(rest, init);
        assert sub == rest + [sub[|sub| - 1]];
        forall i | 0 <= i < |rest| ensures sub[i].layer != sub[|sub| - 1].layer || sub[i].slot != sub[|sub| - 1].slot {
          assert sub[i] in init;
        }
      }
    }
  }

  function WithOverlay(stage: Stage, cells: seq<OverlayCell>): Stage {
    stage.(snapshot := stage.snapshot.(overlay := cells))
  }

  function WithScenes(stage: Stage, cells: seq<SceneCell>): Stage {
    stage.(snapshot := stage.snapshot.(scenes := SceneTable(stage.snapshot.scenes.policy, cells)))
  }

  lemma CellStep(stage: Stage, held: seq<OverlayCell>, last: OverlayCell, g: u8, r: u32)
    requires stage.Of(g, r) && |held| < stage.expectedOverlay <= OVERLAY_CAPACITY
    requires forall c :: c in held ==> c.slot != last.slot
    ensures StageStep(Some(WithOverlay(stage, held)), Cell(g, r, last))
            == StageResult(Some(WithOverlay(stage, held + [last])), None)
  {
  }

  lemma SceneStep(stage: Stage, held: seq<SceneCell>, last: SceneCell, g: u8, r: u32)
    requires stage.Of(g, r) && |held| < stage.expectedScenes <= SCENE_CAPACITY
    requires forall c :: c in held ==> c.layer != last.layer || c.slot != last.slot
    ensures StageStep(Some(WithScenes(stage, held)), TableCell(g, r, last))
            == StageResult(Some(WithScenes(stage, held + [last])), None)
  {
  }

  lemma {:induction false} FeedCells(stage: Stage, g: u8, r: u32, sub: seq<OverlayCell>)
    requires stage.Of(g, r) && stage.snapshot.overlay == []
    requires UniqueOverlay(sub) && |sub| <= stage.expectedOverlay <= OVERLAY_CAPACITY
    ensures Feed(Some(stage), CellPackets(g, r, sub)) == Quiet(WithOverlay(stage, sub))
  {
    if sub == [] {
      assert stage == WithOverlay(stage, []);
    } else {
      var init, last := sub[..|sub| - 1], sub[|sub| - 1];
      hide StageStep, WithOverlay;
      FeedCells(stage, g, r, init);
      CellStep(stage, init, last, g, r);
      FeedSnoc(Some(stage), CellPackets(g, r, init), Cell(g, r, last));
      assert init + [last] == sub;
    }
  }

  lemma {:induction false} FeedScenes(stage: Stage, g: u8, r: u32, sub: seq<SceneCell>)
    requires stage.Of(g, r) && stage.snapshot.scenes.cells == []
    requires UniqueScenes(sub) && |sub| <= stage.expectedScenes <= SCENE_CAPACITY
    ensures Feed(Some(stage), ScenePackets(g, r, sub)) == Quiet(WithScenes(stage, sub))
  {
    if sub == [] {
      assert stage.snapshot.scenes == SceneTable(stage.snapshot.scenes.policy, []);
      assert stage == WithScenes(stage, []);
    } else {
      var init, last := sub[..|sub| - 1], sub[|sub| - 1];
      hide StageStep, WithScenes;
      FeedScenes(stage, g, r, init);
      SceneStep(stage, init, last, g, r);
      FeedSnoc(Some(stage), ScenePackets(g, r, init), TableCell(g, r, last));
      assert init + [last] == sub;
    }
  }

  // ---- Conditional cells ----

  /** The same cells in the same order; a cell may have lost its late gates. */
  predicate GatesLost(held: seq<ConditionalCell>, cells: seq<ConditionalCell>) {
    && |held| == |cells|
    && forall i :: 0 <= i < |cells| ==> held[i] == CarriedCell(cells[i]) || held[i] == PacketCell(cells[i])
  }

  function CellCount(ms: seq<Message>): nat {
    if ms == [] then 0 else CellCount(ms[..|ms| - 1]) + (if ms[|ms| - 1].Conditional? then 1 else 0)
  }

  /** For every cell packet among `ms`, whether a late-gate packet arrived
      between it and the next one. */
  function GatesArrived(ms: seq<Message>): (r: seq<bool>)
    ensures |r| == CellCount(ms)
  {
    if ms == [] then []
    else
      var m, before := ms[|ms| - 1], GatesArrived(ms[..|ms| - 1]);
      if m.Conditional? then before + [false]
      else if m.ConditionalExt? && before != [] then before[..|before| - 1] + [true]
      else before
  }

  /** Cell by cell, late gates are missing exactly where a cell has some and
      their own packet did not arrive. */
  predicate CellByCell(held: seq<ConditionalCell>, cells: seq<ConditionalCell>, arrived: seq<bool>) {
    && GatesLost(held, cells) && |arrived| == |cells|
    && forall i :: 0 <= i < |cells| ==> (held[i] == CarriedCell(cells[i]) <==> !NeedsExt(cells[i]) || arrived[i])
  }

  lemma {:induction false} CellCountAppend(a: seq<Message>, b: seq<Message>)
    ensures CellCount(a + b) == CellCount(a) + CellCount(b)
  {
    if b == [] {
      assert a + b == a;
    } else {
      assert (a + b)[..|a + b| - 1] == a + b[..|b| - 1];
      CellCountAppend(a, b[..|b| - 1]);
    }
  }

  predicate IsConditionalPacket(m: Message, g: u8, r: u32) {
    (m.Conditional? || m.ConditionalExt?) && m.generation == g && m.revision == r
  }

  /** The list the stager collects from conditional packets, `None` once a
      late gate finds no cell to amend. */
  function Collect(ms: seq<Message>): (held: Option<seq<ConditionalCell>>)
    ensures held.Some? ==> |held.value| == CellCount(ms)
  {
    if ms == [] then Some([])
    else
      var m, held := ms[|ms| - 1], Collect(ms[..|ms| - 1]);
      if held.None? then None
      else if m.Conditional? then Some(held.value + [m.conditionalCell])
      else if m.ConditionalExt? then
        if held.value == [] then None else Some(Amended(held.value, m.connection, m.effects))
      else held
  }

  lemma CollectSnoc(ms: seq<Message>, m: Message)
    ensures Collect(ms + [m]) ==
      var held := Collect(ms);
      if held.None? then None
      else if m.Conditional? then Some(held.value + [m.conditionalCell])
      else if m.ConditionalExt? then
        if held.value == [] then None else Some(Amended(held.value, m.connection, m.effects))
      else held
  {
    assert (ms + [m])[..|ms|] == ms;
  }

  lemma {:induction false} FeedAborted(part: seq<Message>)
    requires forall m :: m in part ==> IsTransactionMessage(m) && !m.Begin?
    ensures Feed(None, part) == FeedResult(None, [])
  {
    if part != [] {
      FeedAborted(part[..|part| - 1]);
    }
  }

  function Holding(stage: Stage, held: seq<ConditionalCell>): Stage {
    stage.(snapshot := stage.snapshot.(conditional := held))
  }

  lemma ConditionalStep(stage: Stage, held: seq<ConditionalCell>, m: Message, g: u8, r: u32)
    requires stage.Of(g, r) && IsConditionalPacket(m, g, r)
    requires m.Conditional? ==>
      stage.expectedConditional.Some? && |held| < stage.expectedConditional.value <= SCENE_CAPACITY
    ensures StageStep(Some(Holding(stage, held)), m) == StageResult(
      if m.Conditional? then Some(Holding(stage, held + [m.conditionalCell]))
      else if held == [] then None
      else Some(Holding(stage, Amended(held, m.connection, m.effects))), None)
  {
  }

  /** Feeding conditional packets collects them into the staged table. */
  lemma {:induction false} FeedConditional(stage: Stage, part: seq<Message>, g: u8, r: u32)
    requires stage.Of(g, r) && stage.snapshot.conditional == []
    requires forall m :: m in part ==> IsConditionalPacket(m, g, r)
    requires stage.expectedConditional.Some? && CellCount(part) <= stage.expectedConditional.value <= SCENE_CAPACITY
    ensures Feed(Some(stage), part) == FeedResult(
      match Collect(part) { case None => None case Some(held) => Some(Holding(stage, held)) }, [])
  {
    if part == [] {
      assert stage == Holding(stage, []);
    } else {
      var init, m := part[..|part| - 1], part[|part| - 1];
      assert m in part;
      FeedConditional(stage, init, g, r);
      if Collect(init).Some? {
        ConditionalStep(stage, Collect(init).value, m, g, r);
      }
      hide Holding, Fill;
    }
  }

  /** The list collected from what arrived of the packets of `cells`: complete
      by count exactly when no cell packet is missing, and then only late gates
      can be. */
  ghost predicate Collected(part: seq<Message>, cells: seq<ConditionalCell>, g: u8, r: u32) {
    && CellCount(part) <= |cells|
    && (CellCount(part) == |cells| ==>
         && Collect(part).Some?
         && CellByCell(Collect(part).value, cells, GatesArrived(part))
         && (Collect(part).value == CarriedCells(cells) <==> part == ReceivedConditional(g, r, cells)))
  }

  lemma CarriedCellsSnoc(cells: seq<ConditionalCell>, c: ConditionalCell)
    ensures CarriedCells(cells + [c]) == CarriedCells(cells) + [CarriedCell(c)]
  {
  }

  lemma ReceivedSnoc(g: u8, r: u32, cells: seq<ConditionalCell>, last: ConditionalCell)
    ensures ReceivedConditional(g, r, cells + [last])
            == ReceivedConditional(g, r, cells) + [Conditional(g, r, PacketCell(last))] + ExtPackets(g, r, last)
  {
    assert (cells + [last])[..|cells|] == cells;
  }

  lemma CellByCellSnoc(held: seq<ConditionalCell>, cells: seq<ConditionalCell>, arrived: seq<bool>,
                       x: ConditionalCell, last: ConditionalCell, late: bool)
    requires CellByCell(held, cells, arrived) && (x == CarriedCell(last) || x == PacketCell(last))
    requires x == CarriedCell(last) <==> !NeedsExt(last) || late
    ensures CellByCell(held + [x], cells + [last], arrived + [late])
  {
    var h, c, a := held + [x], cells + [last], arrived + [late];
    forall i | 0 <= i < |c|
      ensures h[i] == CarriedCell(c[i]) || h[i] == PacketCell(c[i])
      ensures h[i] == CarriedCell(c[i]) <==> !NeedsExt(c[i]) || a[i]
    {
      hide CarriedCell, PacketCell, NeedsExt;
      if i < |cells| { assert h[i] == held[i] && c[i] == cells[i] && a[i] == arrived[i]; }
    }
  }

  lemma GatesArrivedSnoc(ms: seq<Message>, m: Message)
    ensures m.Conditional? ==> GatesArrived(ms + [m]) == GatesArrived(ms) + [false]
    ensures !m.Conditional? && !m.ConditionalExt? ==> GatesArrived(ms + [m]) == GatesArrived(ms)
    ensures var before := GatesArrived(ms);
            m.ConditionalExt? && before != [] ==> GatesArrived(ms + [m]) == before[..|before| - 1] + [true]
  {
    assert (ms + [m])[..|ms|] == ms;
  }

  /** The cell arrived, its late gates did not or were not needed. */
  lemma CollectedCell(part: seq<Message>, cells: seq<ConditionalCell>, last: ConditionalCell, g: u8, r: u32)
    requires Collected(part, cells, g, r)
    ensures Collected(part + [Conditional(g, r, PacketCell(last))], cells + [last], g, r)
  {
    var c := Conditional(g, r, PacketCell(last));
    CollectSnoc(part, c);
    CellCountAppend(part, [c]);
    assert CellCount([c]) == 1 by { assert [c][..0] == []; }
    if CellCount(part) == |cells| {
      var held := Collect(part).value;
      ReceivedSnoc(g, r, cells, last);
      CarriedCellsSnoc(cells, last);
      GatesArrivedSnoc(part, c);
      CellByCellSnoc(held, cells, GatesArrived(part), PacketCell(last), last, false);
      AppendCells(held, CarriedCells(cells), PacketCell(last), CarriedCell(last));
      if NeedsExt(last) {
        NotReceived(part, c, ReceivedConditional(g, r, cells), ExtPackets(g, r, last)[0]);
      } else {
        AppendCancel(part, ReceivedConditional(g, r, cells), c);
      }
    }
  }

  /** The cell and its late gates arrived. */
  lemma CollectedCellAndGates(part: seq<Message>, cells: seq<ConditionalCell>, last: ConditionalCell, g: u8, r: u32)
    requires Collected(part, cells, g, r) && NeedsExt(last)
    ensures Collected(part + [Conditional(g, r, PacketCell(last))] + ExtPackets(g, r, last), cells + [last], g, r)
  {
    var c, ext := Conditional(g, r, PacketCell(last)), ExtPackets(g, r, last);
    CollectSnoc(part, c);
    CollectSnoc(part + [c], ext[0]);
    CellCountAppend(part, [c]);
    CellCountAppend(part + [c], ext);
    assert CellCount([c]) == 1 && CellCount(ext) == 0 by { assert [c][..0] == [] && ext[..0] == []; }
    if CellCount(part) == |cells| {
      var held := Collect(part).value;
      ReceivedSnoc(g, r, cells, last);
      CarriedCellsSnoc(cells, last);
      GatesArrivedSnoc(part, c);
      GatesArrivedSnoc(part + [c], ext[0]);
      assert part + [c] + ext == part + [c] + [ext[0]];
      var arrived := GatesArrived(part);
      assert (arrived + [false])[..|arrived|] == arrived;
      CellByCellSnoc(held, cells, arrived, CarriedCell(last), last, true);
      AppendCells(held, CarriedCells(cells), CarriedCell(last), CarriedCell(last));
      assert Amended(held + [PacketCell(last)], ext[0].connection, ext[0].effects) == held + [CarriedCell(last)];
      AppendCancel(part, ReceivedConditional(g, r, cells), c);
      AppendCancel(part + [c], ReceivedConditional(g, r, cells) + [c], ext[0]);
    }
  }

  lemma {:induction false} CollectedAll(part: seq<Message>, cells: seq<ConditionalCell>, g: u8, r: u32)
    requires Subsequence(part, ReceivedConditional(g, r, cells))
    ensures Collected(part, cells, g, r)
    ensures forall m :: m in part ==> IsConditionalPacket(m, g, r)
    decreases cells
  {
    if cells == [] {
      SubsequenceLength(part, []);
    } else {
      var init, last := cells[..|cells| - 1], cells[|cells| - 1];
      assert init + [last] == cells;
      var rest, t1, t2 := SplitConditional(part, init, last, g, r);
      hide Collected, ReceivedConditional;
      CollectedAll(rest, init, g, r);
      CollectedParts(rest, t1, t2, init, last, g, r);
    }
  }

  lemma SplitConditional(part: seq<Message>, init: seq<ConditionalCell>, last: ConditionalCell, g: u8, r: u32)
    returns (rest: seq<Message>, t1: seq<Message>, t2: seq<Message>)
    requires Subsequence(part, ReceivedConditional(g, r, init) + [Conditional(g, r, PacketCell(last))]
                               + ExtPackets(g, r, last))
    ensures part == rest + t1 + t2
    ensures Subsequence(rest, ReceivedConditional(g, r, init))
    ensures t1 == [] || t1 == [Conditional(g, r, PacketCell(last))]
    ensures |t2| <= |ExtPackets(g, r, last)| && forall m :: m in t2 ==> m in ExtPackets(g, r, last)
  {
    var c, ext := Conditional(g, r, PacketCell(last)), ExtPackets(g, r, last);
    var front;
    front, t2 := SubsequenceSplit(part, ReceivedConditional(g, r, init) + [c], ext);
    rest, t1 := SubsequenceSplit(front, ReceivedConditional(g, r, init), [c]);
    SubsequenceOfOne(t1, c);
    SubsequenceMember(t2, ext);
    SubsequenceLength(t2, ext);
  }

  lemma CollectedParts(rest: seq<Message>, t1: seq<Message>, t2: seq<Message>, init: seq<ConditionalCell>,
                       last: ConditionalCell, g: u8, r: u32)
    requires Collected(rest, init, g, r)
    requires t1 == [] || t1 == [Conditional(g, r, PacketCell(last))]
    requires |t2| <= |ExtPackets(g, r, last)| && (forall m :: m in t2 ==> m in ExtPackets(g, r, last))
    ensures Collected(rest + t1 + t2, init + [last], g, r)
  {
    var c, ext := Conditional(g, r, PacketCell(last)), ExtPackets(g, r, last);
    if t2 == [] {
      assert rest + t1 + t2 == rest + t1;
    } else {
      assert t2[0] in t2;
      assert t2 == ext;
    }
    if t1 == [] {
      assert rest + t1 == rest;
      CellCountAppend(rest, t2);
      assert CellCount(t2) == 0 by { if t2 != [] { assert t2[..0] == []; } }
    } else if t2 == [] {
      CollectedCell(rest, init, last, g, r);
    } else {
      CollectedCellAndGates(rest, init, last, g, r);
    }
  }

  lemma NotReceived(part: seq<Message>, c: Message, all: seq<Message>, ext: Message)
    requires c.Conditional? && ext.ConditionalExt?
    ensures part + [c] != all + [c] + [ext]
  {
    assert (part + [c])[|part + [c]| - 1] == c;
    assert (all + [c] + [ext])[|all + [c] + [ext]| - 1] == ext;
  }

  lemma AppendCancel(a: seq<Message>, b: seq<Message>, c: Message)
    ensures a + [c] == b + [c] <==> a == b
  {
    assert (a + [c])[..|a|] == a && (b + [c])[..|b|] == b;
  }

  lemma AppendCells(a: seq<ConditionalCell>, b: seq<ConditionalCell>, x: ConditionalCell, y: ConditionalCell)
    requires |a| == |b|
    ensures a + [x] == b + [y] <==> a == b && x == y
    ensures a + [y] == b + [y] <==> a == b
  {
    assert (a + [x])[..|a|] == a && (b + [y])[..|b|] == b && (a + [y])[..|a|] == a;
    assert (a + [x])[|a|] == x && (b + [y])[|b|] == y;
  }

  // ---- The whole transaction ----

  /** Messages other than late-gate packets. */
  function SolidCount(ms: seq<Message>): nat {
    if ms == [] then 0 else SolidCount(ms[..|ms| - 1]) + (if ms[|ms| - 1].ConditionalExt? then 0 else 1)
  }

  lemma {:induction false} SolidCountAppend(a: seq<Message>, b: seq<Message>)
    ensures SolidCount(a + b) == SolidCount(a) + SolidCount(b)
  {
    if b == [] {
      assert a + b == a;
    } else {
      assert (a + b)[..|a + b| - 1] == a + b[..|b| - 1];
      SolidCountAppend(a, b[..|b| - 1]);
    }
  }

  lemma {:induction false} SolidAll(ms: seq<Message>)
    requires forall m :: m in ms ==> !m.ConditionalExt?
    ensures SolidCount(ms) == |ms|
  {
    if ms != [] { SolidAll(ms[..|ms| - 1]); }
  }

  lemma {:induction false} SolidConditional(ms: seq<Message>)
    requires forall m :: m in ms ==> m.Conditional? || m.ConditionalExt?
    ensures SolidCount(ms) == CellCount(ms)
  {
    if ms != [] { SolidConditional(ms[..|ms| - 1]); }
  }

  lemma {:induction false} ReceivedCellCount(g: u8, r: u32, cells: seq<ConditionalCell>)
    ensures CellCount(ReceivedConditional(g, r, cells)) == |cells|
  {
    if cells != [] {
      var init, last := cells[..|cells| - 1], cells[|cells| - 1];
      var c, ext := Conditional(g, r, PacketCell(last)), ExtPackets(g, r, last);
      ReceivedCellCount(g, r, init);
      CellCountAppend(ReceivedConditional(g, r, init), [c]);
      CellCountAppend(ReceivedConditional(g, r, init) + [c], ext);
      assert CellCount([c]) == 1 && CellCount(ext) == 0 by {
        assert [c][..0] == [];
        if ext != [] { assert ext[..0] == []; }
      }
    }
  }

  /** The sections of a lossy walk. */
  datatype Parts = Parts(
    prologue: seq<Message>, overlay: seq<OverlayCell>, scenes: seq<SceneCell>,
    announce: seq<Message>, conditional: seq<Message>, epilogue: seq<Message>)
  {
    function Messages(g: u8, r: u32): seq<Message> {
      prologue + CellPackets(g, r, overlay) + ScenePackets(g, r, scenes) + announce + conditional + epilogue
    }

    lemma InSections(g: u8, r: u32)
      ensures Messages(g, r) == prologue + (CellPackets(g, r, overlay) + ScenePackets(g, r, scenes))
                                + (announce + conditional) + epilogue
    {
      hide CellPackets, ScenePackets;
    }
  }

  ghost predicate PartsOf(parts: Parts, g: u8, s: Snapshot, b: BatteryPair) {
    && Subsequence(parts.prologue, Prologue(g, s, b))
    && Subsequence(parts.overlay, RightOverlay(s.overlay))
    && Subsequence(parts.scenes, RightScenes(s.scenes.cells))
    && (parts.announce == [] || parts.announce == Announce(g, s))
    && Subsequence(parts.conditional, ReceivedConditional(g, s.revision, RightConditional(s.conditional)))
    && (parts.epilogue == [] || parts.epilogue == Epilogue(g, s))
  }

  lemma SplitWalk(ms: seq<Message>, g: u8, s: Snapshot, b: BatteryPair) returns (parts: Parts)
    requires Subsequence(ms, ReceivedWalk(g, s, b))
    ensures PartsOf(parts, g, s, b) && ms == parts.Messages(g, s.revision)
  {
    var r := s.revision;
    var o, c := CellPackets(g, r, RightOverlay(s.overlay)), ScenePackets(g, r, RightScenes(s.scenes.cells));
    var q := ReceivedConditional(g, r, RightConditional(s.conditional));
    hide CellPackets, ScenePackets, ReceivedConditional, Prologue;
    var m5, pe := SubsequenceSplit(ms, Prologue(g, s, b) + o + c + Announce(g, s) + q, Epilogue(g, s));
    var m4, pq := SubsequenceSplit(m5, Prologue(g, s, b) + o + c + Announce(g, s), q);
    var m3, pa := SubsequenceSplit(m4, Prologue(g, s, b) + o + c, Announce(g, s));
    var m2, pc := SubsequenceSplit(m3, Prologue(g, s, b) + o, c);
    var pp, po := SubsequenceSplit(m2, Prologue(g, s, b), o);
    SubsequenceOfOne(pe, Epilogue(g, s)[0]);
    SubsequenceOfOne(pa, Announce(g, s)[0]);
    var cells := SubsequenceOfCells(po, g, r, RightOverlay(s.overlay));
    var scenes := SubsequenceOfScenes(pc, g, r, RightScenes(s.scenes.cells));
    parts := Parts(pp, cells, scenes, pa, pq, pe);
  }

  function BeforeCommit(g: u8, s: Snapshot, b: BatteryPair, h: Heard, parts: Parts): Option<Stage> {
    if parts.announce == [] then
      if parts.conditional == [] then Some(StageFor(g, s, b, h, parts.overlay, parts.scenes, false, [])) else None
    else
      match Collect(parts.conditional)
      case None => None
      case Some(held) => Some(StageFor(g, s, b, h, parts.overlay, parts.scenes, true, held))
  }

  lemma FeedCellSections(h: Heard, parts: Parts, g: u8, s: Snapshot, b: BatteryPair)
    requires Queueable(s) && PartsOf(parts, g, s, b)
    ensures var cells := CellPackets(g, s.revision, parts.overlay) + ScenePackets(g, s.revision, parts.scenes);
            Feed(Some(StageFor(g, s, b, h, [], [], false, [])), cells)
            == Quiet(StageFor(g, s, b, h, parts.overlay, parts.scenes, false, []))
  {
    SubsequenceLength(parts.overlay, RightOverlay(s.overlay));
    SubsequenceLength(parts.scenes, RightScenes(s.scenes.cells));
    SubsequenceUniqueOverlay(parts.overlay, RightOverlay(s.overlay));
    SubsequenceUniqueScenes(parts.scenes, RightScenes(s.scenes.cells));
    FeedCells(StageFor(g, s, b, h, [], [], false, []), g, s.revision, parts.overlay);
    FeedScenes(StageFor(g, s, b, h, parts.overlay, [], false, []), g, s.revision, parts.scenes);
    FeedAppend(Some(StageFor(g, s, b, h, [], [], false, [])),
               CellPackets(g, s.revision, parts.overlay), ScenePackets(g, s.revision, parts.scenes));
  }

  lemma AnnounceStep(g: u8, s: Snapshot, b: BatteryPair, h: Heard, o: seq<OverlayCell>, c: seq<SceneCell>)
    requires CountsInRange(s)
    ensures Feed(Some(StageFor(g, s, b, h, o, c, false, [])), Announce(g, s)) == Quiet(StageFor(g, s, b, h, o, c,
      true, []))
  {
    hide RightOverlay, RightScenes, RightConditional;
    FeedOne(Some(StageFor(g, s, b, h, o, c, false, [])), Announce(g, s)[0]);
  }

  /** A conditional packet without its announcement aborts the stage. */
  lemma UnannouncedStep(g: u8, s: Snapshot, b: BatteryPair, h: Heard, o: seq<OverlayCell>, c: seq<SceneCell>,
                        m: Message)
    requires IsConditionalPacket(m, g, s.revision)
    ensures Feed(Some(StageFor(g, s, b, h, o, c, false, [])), [m]) == FeedResult(None, [])
  {
    FeedOne(Some(StageFor(g, s, b, h, o, c, false, [])), m);
    hide Feed;
  }

  lemma UnannouncedAborts(g: u8, s: Snapshot, b: BatteryPair, h: Heard, o: seq<OverlayCell>, c: seq<SceneCell>,
                          q: seq<Message>)
    requires q != [] && forall m :: m in q ==> IsConditionalPacket(m, g, s.revision)
    ensures Feed(Some(StageFor(g, s, b, h, o, c, false, [])), q) == FeedResult(None, [])
  {
    var stage := Some(StageFor(g, s, b, h, o, c, false, []));
    assert q == [q[0]] + q[1..];
    assert q[0] in q;
    forall m | m in q[1..] ensures IsTransactionMessage(m) && !m.Begin? {
      assert m in q;
    }
    hide StageFor, Feed, IsTransactionMessage, IsConditionalPacket;
    UnannouncedStep(g, s, b, h, o, c, q[0]);
    FeedAborted(q[1..]);
    FeedAppend(stage, [q[0]], q[1..]);
  }

  lemma AnnouncedCollects(g: u8, s: Snapshot, b: BatteryPair, h: Heard, o: seq<OverlayCell>, c: seq<SceneCell>,
                          q: seq<Message>)
    requires CountsInRange(s) && CellCount(q) <= SnapshotCounts(s).conditional
    requires forall m :: m in q ==> IsConditionalPacket(m, g, s.revision)
    ensures Feed(Some(StageFor(g, s, b, h, o, c, true, [])), q) == FeedResult(
      match Collect(q) { case None => None case Some(held) => Some(StageFor(g, s, b, h, o, c, true, held)) }, [])
  {
    FeedConditional(StageFor(g, s, b, h, o, c, true, []), q, g, s.revision);
  }

  lemma FeedConditionalSection(h: Heard, parts: Parts, g: u8, s: Snapshot, b: BatteryPair)
    requires Queueable(s) && PartsOf(parts, g, s, b)
    ensures Feed(Some(StageFor(g, s, b, h, parts.overlay, parts.scenes, false, [])), parts.announce + parts.conditional)
            == FeedResult(BeforeCommit(g, s, b, h, parts), [])
  {
    var q, a := parts.conditional, parts.announce;
    var stage := Some(StageFor(g, s, b, h, parts.overlay, parts.scenes, false, []));
    CollectedAll(q, RightConditional(s.conditional), g, s.revision);
    hide StageFor, StageStep, Collect, CellCount, ReceivedConditional, IsConditionalPacket;
    FeedAppend(stage, a, q);
    if a == [] {
      if q != [] {
        UnannouncedAborts(g, s, b, h, parts.overlay, parts.scenes, q);
      }
    } else {
      hide Feed;
      AnnounceStep(g, s, b, h, parts.overlay, parts.scenes);
      AnnouncedCollects(g, s, b, h, parts.overlay, parts.scenes, q);
    }
  }

  lemma FeedInOrder(start: Option<Stage>, a: seq<Message>, b: seq<Message>, c: seq<Message>, d: seq<Message>)
    ensures var s1 := Feed(start, a);
            var s2 := Feed(s1.stage, b);
            var s3 := Feed(s2.stage, c);
            var s4 := Feed(s3.stage, d);
            Feed(start, a + b + c + d) == FeedResult(s4.stage, s1.outputs + s2.outputs + s3.outputs + s4.outputs)
  {
    hide *;
    FeedAppend(start, a, b);
    FeedAppend(start, a + b, c);
    FeedAppend(start, a + b + c, d);
  }

  /** Everything up to the commit, when the Begin arrived. */
  lemma FeedSections(start: Option<Stage>, parts: Parts, g: u8, s: Snapshot, b: BatteryPair) returns (h: Heard)
    requires Queueable(s) && PartsOf(parts, g, s, b)
    requires parts.prologue != [] && parts.prologue[0].Begin?
    ensures |parts.prologue| == 1 + BoolByte(h.wake) + BoolByte(h.context) + BoolByte(h.extension) + BoolByte(h.overlay)
    ensures Feed(start, parts.Messages(g, s.revision)) == Feed(BeforeCommit(g, s, b, h, parts), parts.epilogue)
  {
    assert CountsInRange(s) && Subsequence(parts.prologue, Prologue(g, s, b));
    hide *;
    var cells := CellPackets(g, s.revision, parts.overlay) + ScenePackets(g, s.revision, parts.scenes);
    var conditional := parts.announce + parts.conditional;
    parts.InSections(g, s.revision);
    h := FeedPrologue(start, parts.prologue, g, s, b);
    FeedCellSections(h, parts, g, s, b);
    FeedConditionalSection(h, parts, g, s, b);
    QuietFeeds(StageFor(g, s, b, h, [], [], false, []));
    QuietFeeds(StageFor(g, s, b, h, parts.overlay, parts.scenes, false, []));
    FeedInOrder(start, parts.prologue, cells, conditional, parts.epilogue);
  }

  predicate Complete(parts: Parts, s: Snapshot) {
    && |parts.prologue| == 5
    && |parts.overlay| == |RightOverlay(s.overlay)|
    && |parts.scenes| == |RightScenes(s.scenes.cells)|
    && parts.epilogue != []
    && (if parts.announce == [] then parts.conditional == []
        else CellCount(parts.conditional) == |RightConditional(s.conditional)|)
  }

  lemma CommitStep(g: u8, s: Snapshot, b: BatteryPair, h: Heard, o: seq<OverlayCell>, c: seq<SceneCell>,
                   announced: bool, held: seq<ConditionalCell>)
    requires CountsInRange(s)
    ensures var counts := SnapshotCounts(s);
            var stage := StageFor(g, s, b, h, o, c, announced, held);
            Feed(Some(stage), Epilogue(g, s)).outputs ==
            if h == Heard(true, true, true, true) && |o| == counts.overlay && |c| == counts.scenes
               && (announced ==> |held| == counts.conditional)
            then [Staged(g, stage.snapshot, b)] else []
  {
    hide RightOverlay, RightScenes, RightConditional, Fill;
    FeedOne(Some(StageFor(g, s, b, h, o, c, announced, held)), Epilogue(g, s)[0]);
  }

  lemma WholeStage(g: u8, s: Snapshot, b: BatteryPair, announced: bool, held: seq<ConditionalCell>)
    ensures StageFor(g, s, b, Heard(true, true, true, true), RightOverlay(s.overlay), RightScenes(s.scenes.cells),
                     announced, held).snapshot
            == Replica(s).(conditional := held)
  {
    hide RightOverlay, RightScenes, RightConditional, CarriedCells;
  }

  lemma CommitOutcome(parts: Parts, h: Heard, g: u8, s: Snapshot, b: BatteryPair)
    requires Queueable(s) && PartsOf(parts, g, s, b)
    requires |parts.prologue| ==
             1 + BoolByte(h.wake) + BoolByte(h.context) + BoolByte(h.extension) + BoolByte(h.overlay)
    ensures var out := Feed(BeforeCommit(g, s, b, h, parts), parts.epilogue).outputs;
            && (!Complete(parts, s) ==> out == [])
            && (Complete(parts, s) ==>
                 && (parts.announce != [] ==> Collect(parts.conditional).Some?)
                 && out == [Staged(g, Replica(s).(conditional :=
                      if parts.announce == [] then [] else Collect(parts.conditional).value), b)])
  {
    CollectedAll(parts.conditional, RightConditional(s.conditional), g, s.revision);
    SubsequenceLength(parts.overlay, RightOverlay(s.overlay));
    SubsequenceLength(parts.scenes, RightScenes(s.scenes.cells));
    assert parts.epilogue == [] || parts.epilogue == Epilogue(g, s);
    assert CountsInRange(s);
    var before := BeforeCommit(g, s, b, h, parts);
    hide PartsOf, Collect, CellCount, ReceivedConditional, StageStep, RightOverlay, RightScenes, RightConditional,
      Epilogue;
    hide Queueable, Subsequence;
    if parts.epilogue != [] {
      if before.None? {
        FeedAborted(parts.epilogue);
      } else {
        var held := if parts.announce == [] then [] else Collect(parts.conditional).value;
        assert before == Some(StageFor(g, s, b, h, parts.overlay, parts.scenes, parts.announce != [], held));
        hide Feed, BeforeCommit, StageFor, Replica;
        WholeStage(g, s, b, parts.announce != [], held);
        CommitStep(g, s, b, h, parts.overlay, parts.scenes, parts.announce != [], held);
      }
    }
  }

  // ---- Counting what arrived ----

  lemma PartsSolid(parts: Parts, g: u8, s: Snapshot, b: BatteryPair)
    requires PartsOf(parts, g, s, b)
    ensures SolidCount(parts.Messages(g, s.revision))
            == |parts.prologue| + |parts.overlay| + |parts.scenes| + |parts.announce| + CellCount(parts.conditional)
               + |parts.epilogue|
  {
    var r := s.revision;
    var o, c := CellPackets(g, r, parts.overlay), ScenePackets(g, r, parts.scenes);
    SubsequenceMember(parts.prologue, Prologue(g, s, b));
    CellPacketsKind(g, r, parts.overlay);
    ScenePacketsKind(g, r, parts.scenes);
    CollectedAll(parts.conditional, RightConditional(s.conditional), g, r);
    SolidAll(parts.prologue);
    SolidAll(o);
    SolidAll(c);
    SolidAll(parts.announce);
    SolidConditional(parts.conditional);
    SolidAll(parts.epilogue);
    assert parts.Messages(g, r) == parts.prologue + o + c + parts.announce + parts.conditional + parts.epilogue;
    hide *;
    SolidCountAppend(parts.prologue, o);
    SolidCountAppend(parts.prologue + o, c);
    SolidCountAppend(parts.prologue + o + c, parts.announce);
    SolidCountAppend(parts.prologue + o + c + parts.announce, parts.conditional);
    SolidCountAppend(parts.prologue + o + c + parts.announce + parts.conditional, parts.epilogue);
  }

  /** The whole walk, as parts of itself. */
  function WholeParts(g: u8, s: Snapshot, b: BatteryPair): (parts: Parts)
    ensures parts.Messages(g, s.revision) == ReceivedWalk(g, s, b)
  {
    Parts(Prologue(g, s, b), RightOverlay(s.overlay), RightScenes(s.scenes.cells), Announce(g, s),
          ReceivedConditional(g, s.revision, RightConditional(s.conditional)), Epilogue(g, s))
  }

  lemma {:induction false} SubsequenceSelf<T>(ms: seq<T>)
    ensures Subsequence(ms, ms)
  {
    if ms != [] {
      SubsequenceSelf(ms[..|ms| - 1]);
    }
  }

  lemma WholePartsOf(g: u8, s: Snapshot, b: BatteryPair)
    ensures PartsOf(WholeParts(g, s, b), g, s, b)
    ensures SolidCount(ReceivedWalk(g, s, b))
            == 7 + |RightOverlay(s.overlay)| + |RightScenes(s.scenes.cells)| + |RightConditional(s.conditional)|
  {
    SubsequenceSelf(Prologue(g, s, b));
    SubsequenceSelf(RightOverlay(s.overlay));
    SubsequenceSelf(RightScenes(s.scenes.cells));
    SubsequenceSelf(ReceivedConditional(g, s.revision, RightConditional(s.conditional)));
    ReceivedCellCount(g, s.revision, RightConditional(s.conditional));
    PartsSolid(WholeParts(g, s, b), g, s, b);
  }

  lemma PartsBounds(parts: Parts, g: u8, s: Snapshot, b: BatteryPair)
    requires PartsOf(parts, g, s, b)
    ensures |parts.prologue| <= 5 && |parts.announce| <= 1 && |parts.epilogue| <= 1
    ensures |parts.overlay| <= |RightOverlay(s.overlay)|
    ensures |parts.scenes| <= |RightScenes(s.scenes.cells)|
    ensures CellCount(parts.conditional) <= |RightConditional(s.conditional)|
    ensures |parts.prologue| == 5 ==> parts.prologue == Prologue(g, s, b)
    ensures |parts.overlay| == |RightOverlay(s.overlay)| ==> parts.overlay == RightOverlay(s.overlay)
    ensures |parts.scenes| == |RightScenes(s.scenes.cells)| ==> parts.scenes == RightScenes(s.scenes.cells)
  {
    SubsequenceLength(parts.prologue, Prologue(g, s, b));
    SubsequenceLength(parts.overlay, RightOverlay(s.overlay));
    SubsequenceLength(parts.scenes, RightScenes(s.scenes.cells));
    CollectedAll(parts.conditional, RightConditional(s.conditional), g, s.revision);
  }

  /** Complete with an announcement: nothing but late gates was lost. */
  lemma CompleteAnnounced(parts: Parts, g: u8, s: Snapshot, b: BatteryPair)
    requires PartsOf(parts, g, s, b)
    ensures Complete(parts, s) && parts.announce != []
            <==> SolidCount(parts.Messages(g, s.revision)) == SolidCount(ReceivedWalk(g, s, b))
  {
    PartsSolid(parts, g, s, b);
    WholePartsOf(g, s, b);
    PartsBounds(parts, g, s, b);
    hide PartsOf, SolidCount, ReceivedWalk, CellCount, RightOverlay, RightScenes, RightConditional, Parts.Messages;
  }

  lemma HasMember(part: seq<Message>)
    ensures part == [] || exists m :: m in part
  {
    if part != [] { assert part[0] in part; }
  }

  lemma NothingConditional(parts: Parts, g: u8, s: Snapshot, b: BatteryPair)
    requires PartsOf(parts, g, s, b) && parts.Messages(g, s.revision) == WithoutConditional(g, s, b)
    ensures parts.announce == [] && parts.conditional == []
  {
    CollectedAll(parts.conditional, RightConditional(s.conditional), g, s.revision);
    WithoutConditionalKinds(g, s, b);
    HasMember(parts.announce);
    HasMember(parts.conditional);
    hide WithoutConditional, Prologue, CellPackets, ScenePackets, CellCount, RightConditional, RightOverlay,
      RightScenes;
    assert forall m :: m in parts.announce || m in parts.conditional ==> m in parts.Messages(g, s.revision);
  }

  /** Complete without an announcement: exactly the conditional section is gone. */
  lemma CompleteUnannounced(parts: Parts, g: u8, s: Snapshot, b: BatteryPair)
    requires PartsOf(parts, g, s, b)
    ensures Complete(parts, s) && parts.announce == []
            <==> parts.Messages(g, s.revision) == WithoutConditional(g, s, b)
  {
    PartsBounds(parts, g, s, b);
    if parts.Messages(g, s.revision) == WithoutConditional(g, s, b) {
      NothingConditional(parts, g, s, b);
      hide PartsOf, CellCount, RightOverlay, RightScenes, RightConditional, CellPackets, ScenePackets;
      assert |parts.prologue| + |parts.overlay| + |parts.scenes| + |parts.epilogue|
             == 6 + |RightOverlay(s.overlay)| + |RightScenes(s.scenes.cells)|;
    } else {
      hide CellCount, RightOverlay, RightScenes, RightConditional, CellPackets, ScenePackets;
    }
  }

  lemma WithoutConditionalKinds(g: u8, s: Snapshot, b: BatteryPair)
    ensures forall m :: m in WithoutConditional(g, s, b) ==>
      !m.ConditionalBegin? && !m.Conditional? && !m.ConditionalExt?
  {
    CellPacketsKind(g, s.revision, RightOverlay(s.overlay));
    ScenePacketsKind(g, s.revision, RightScenes(s.scenes.cells));
    hide CellPackets, ScenePackets;
  }

  // ---- When the Begin itself is lost ----

  lemma {:induction false} NothingWithoutBegin(start: Option<Stage>, ms: seq<Message>, g: u8, r: u32)
    requires start.None? || !start.value.Of(g, r)
    requires forall m :: m in ms ==> Follows(m, g, r)
    ensures Feed(start, ms).outputs == []
    ensures Feed(start, ms).stage == if ms == [] then start else None
  {
    if ms != [] {
      var init, m := ms[..|ms| - 1], ms[|ms| - 1];
      assert m in ms;
      NothingWithoutBegin(start, init, g, r);
    }
  }

  predicate Follows(m: Message, g: u8, r: u32) {
    IsTransactionMessage(m) && !m.Begin? && m.generation == g && m.revision == r
  }

  lemma LostBeginKinds(parts: Parts, g: u8, s: Snapshot, b: BatteryPair)
    requires PartsOf(parts, g, s, b)
    requires parts.prologue == [] || !parts.prologue[0].Begin?
    ensures forall m :: m in parts.Messages(g, s.revision) ==> Follows(m, g, s.revision)
    ensures |parts.prologue| < 5
  {
    CellPacketsKind(g, s.revision, parts.overlay);
    ScenePacketsKind(g, s.revision, parts.scenes);
    CollectedAll(parts.conditional, RightConditional(s.conditional), g, s.revision);
    LostBeginPrologue(parts.prologue, g, s, b);
    hide CellPackets, ScenePackets, RightOverlay, RightScenes, RightConditional;
  }

  lemma LostBeginPrologue(part: seq<Message>, g: u8, s: Snapshot, b: BatteryPair)
    requires Subsequence(part, Prologue(g, s, b)) && (part == [] || !part[0].Begin?)
    ensures |part| < 5
    ensures forall m :: m in part ==> Follows(m, g, s.revision)
  {
    var p := Prologue(g, s, b);
    assert p == [p[0]] + p[1..];
    var l, rest := SubsequenceSplit(part, [p[0]], p[1..]);
    SubsequenceOfOne(l, p[0]);
    SubsequenceLength(rest, p[1..]);
    SubsequenceMember(rest, p[1..]);
    assert part == rest;
    assert forall m :: m in p[1..] ==> Follows(m, g, s.revision);
  }

  // ---- Main results ----

  /** What a run of messages of one transaction `W` may yield: nothing, or one
      snapshot that is the whole right half up to late conditional gates, or
      up to the whole conditional table. */
  ghost predicate LossyOutcome(outputs: seq<Staged>, ms: seq<Message>, g: u8, s: Snapshot, b: BatteryPair) {
    var W := ReceivedWalk(g, s, b);
    var cells := RightConditional(s.conditional);
    var onlyGatesLost := SolidCount(ms) == SolidCount(W);
    && (outputs != [] <==> onlyGatesLost || ms == WithoutConditional(g, s, b))
    && (outputs != [] ==>
         var out := outputs[0];
         && |outputs| == 1
         && out == Staged(g, Replica(s).(conditional := out.snapshot.conditional), b)
         && (if onlyGatesLost then CellByCell(out.snapshot.conditional, cells, GatesArrived(ms))
             else out.snapshot.conditional == [])
         && (out.snapshot == Replica(s) <==> ms == W || cells == []))
  }

  function AcceptedTable(parts: Parts): seq<ConditionalCell>
    requires parts.announce != [] ==> Collect(parts.conditional).Some?
  {
    if parts.announce == [] then [] else Collect(parts.conditional).value
  }

  /** What comes out when the Begin arrived. */
  lemma BegunOutputs(start: Option<Stage>, parts: Parts, g: u8, s: Snapshot, b: BatteryPair)
    requires Queueable(s) && PartsOf(parts, g, s, b)
    requires parts.prologue != [] && parts.prologue[0].Begin?
    ensures !Complete(parts, s) ==> Feed(start, parts.Messages(g, s.revision)).outputs == []
    ensures Complete(parts, s) ==>
      && (parts.announce != [] ==> Collect(parts.conditional).Some?)
      && Feed(start, parts.Messages(g, s.revision)).outputs
         == [Staged(g, Replica(s).(conditional := AcceptedTable(parts)), b)]
  {
    hide Feed, Queueable, PartsOf, StageFor, Collect, Complete, Replica, BeforeCommit, Parts.Messages;
    var h := FeedSections(start, parts, g, s, b);
    CommitOutcome(parts, h, g, s, b);
  }

  /** The same for a Begin that arrived and for one that was lost. */
  lemma Outputs(start: Option<Stage>, parts: Parts, ms: seq<Message>, g: u8, s: Snapshot, b: BatteryPair)
    requires Queueable(s) && PartsOf(parts, g, s, b) && ms == parts.Messages(g, s.revision)
    requires start.None? || !start.value.Of(g, s.revision) || (ms != [] && ms[0].Begin?)
    ensures !Complete(parts, s) ==> Feed(start, ms).outputs == []
    ensures Complete(parts, s) ==>
      && (parts.announce != [] ==> Collect(parts.conditional).Some?)
      && Feed(start, ms).outputs == [Staged(g, Replica(s).(conditional := AcceptedTable(parts)), b)]
  {
    hide Feed, Queueable, PartsOf, StageFor, Collect, Complete, Replica, Parts.Messages;
    if parts.prologue != [] && parts.prologue[0].Begin? {
      BegunOutputs(start, parts, g, s, b);
    } else {
      LostBegin(start, parts, ms, g, s, b);
    }
  }

  /** Loss safety, for every order-preserving selection of the packets of one
      transaction, into a stage that is empty, belongs to another transaction,
      or is restarted by this one's Begin. A snapshot comes out exactly when
      nothing but late gates was lost, or exactly the conditional section was;
      it is then complete but for that, cell by cell, and is the full replica exactly when
      every packet arrived or there were no conditional cells. */
  lemma LossSafety(start: Option<Stage>, ms: seq<Message>, g: u8, s: Snapshot, b: BatteryPair)
    requires Queueable(s) && Subsequence(ms, ReceivedWalk(g, s, b))
    requires start.None? || !start.value.Of(g, s.revision) || (ms != [] && ms[0].Begin?)
    ensures LossyOutcome(Feed(start, ms).outputs, ms, g, s, b)
  {
    hide Feed, Queueable, PartsOf, ReceivedWalk, WithoutConditional, SolidCount, StageFor, Complete, Collect,
      Parts.Messages;
    hide Subsequence, Replica, CellByCell, GatesArrived, RightConditional;
    var parts := SplitWalk(ms, g, s, b);
    CompleteAnnounced(parts, g, s, b);
    CompleteUnannounced(parts, g, s, b);
    Outputs(start, parts, ms, g, s, b);
    if Complete(parts, s) {
      AcceptedContents(parts, g, s, b);
    }
  }

  lemma LostBegin(start: Option<Stage>, parts: Parts, ms: seq<Message>, g: u8, s: Snapshot, b: BatteryPair)
    requires PartsOf(parts, g, s, b) && ms == parts.Messages(g, s.revision)
    requires parts.prologue == [] || !parts.prologue[0].Begin?
    requires start.None? || !start.value.Of(g, s.revision) || (ms != [] && ms[0].Begin?)
    ensures Feed(start, ms).outputs == [] && !Complete(parts, s)
  {
    LostBeginKinds(parts, g, s, b);
    assert ms == [] || ms[0] in ms;
    NothingWithoutBegin(start, ms, g, s.revision);
  }

  predicate Unconditional(ms: seq<Message>) { forall m :: m in ms ==> !m.Conditional? && !m.ConditionalExt? }

  lemma {:induction false} GatesBehind(front: seq<Message>, ms: seq<Message>)
    requires Unconditional(front)
    ensures GatesArrived(front + ms) == GatesArrived(ms)
  {
    if ms != [] {
      assert (front + ms)[..|front + ms| - 1] == front + ms[..|ms| - 1];
      GatesBehind(front, ms[..|ms| - 1]);
    } else if front != [] {
      assert front + ms == front;
      assert front[|front| - 1] in front;
      GatesBehind(front[..|front| - 1], []);
      assert front[..|front| - 1] + [] == front[..|front| - 1];
    }
  }

  lemma GatesOfParts(parts: Parts, g: u8, s: Snapshot, b: BatteryPair)
    requires PartsOf(parts, g, s, b)
    ensures GatesArrived(parts.Messages(g, s.revision)) == GatesArrived(parts.conditional)
  {
    var r := s.revision;
    var o, c := CellPackets(g, r, parts.overlay), ScenePackets(g, r, parts.scenes);
    var front := parts.prologue + o + c + parts.announce;
    assert Unconditional(front) by {
      SubsequenceMember(parts.prologue, Prologue(g, s, b));
      CellPacketsKind(g, r, parts.overlay);
      ScenePacketsKind(g, r, parts.scenes);
      hide CellPackets, ScenePackets, Subsequence;
    }
    assert parts.Messages(g, r) == front + parts.conditional + parts.epilogue;
    var e := Epilogue(g, s)[0];
    assert (parts.epilogue == [] || parts.epilogue == [e]) && e.Commit?;
    hide *;
    GatesBehind(front, parts.conditional);
    if parts.epilogue == [] {
      assert front + parts.conditional + parts.epilogue == front + parts.conditional;
    } else {
      GatesArrivedSnoc(front + parts.conditional, e);
    }
  }

  /** The accepted table is the carried one exactly when the run is the walk. */
  lemma AcceptedContents(parts: Parts, g: u8, s: Snapshot, b: BatteryPair)
    requires PartsOf(parts, g, s, b) && Complete(parts, s)
    ensures var cells := RightConditional(s.conditional);
            && (parts.announce != [] ==>
                 && Collect(parts.conditional).Some?
                 && CellByCell(Collect(parts.conditional).value, cells, GatesArrived(parts.Messages(g, s.revision)))
                 && (Replica(s).(conditional := Collect(parts.conditional).value) == Replica(s)
                     <==> parts.Messages(g, s.revision) == ReceivedWalk(g, s, b) || cells == []))
            && (parts.announce == [] ==>
                 && (Replica(s).(conditional := []) == Replica(s) <==> cells == [])
                 && parts.Messages(g, s.revision) != ReceivedWalk(g, s, b))
  {
    var cells, r := RightConditional(s.conditional), s.revision;
    PartsBounds(parts, g, s, b);
    CollectedAll(parts.conditional, cells, g, r);
    if parts.announce == [] {
      WholePartsOf(g, s, b);
      CompleteAnnounced(parts, g, s, b);
    } else {
      GatesOfParts(parts, g, s, b);
      var front := Prologue(g, s, b) + CellPackets(g, r, RightOverlay(s.overlay))
                   + ScenePackets(g, r, RightScenes(s.scenes.cells)) + Announce(g, s);
      var q := ReceivedConditional(g, r, cells);
      assert parts.Messages(g, r) == front + parts.conditional + Epilogue(g, s);
      assert ReceivedWalk(g, s, b) == front + q + Epilogue(g, s);
      MiddleCancel(front, parts.conditional, q, Epilogue(g, s));
      if cells == [] {
        SubsequenceLength(parts.conditional, q);
      }
    }
  }

  lemma MiddleCancel(front: seq<Message>, a: seq<Message>, b: seq<Message>, back: seq<Message>)
    ensures front + a + back == front + b + back <==> a == b
  {
    if front + a + back == front + b + back {
      assert |a| == |b|;
      assert (front + a + back)[|front|..|front| + |a|] == a;
      assert (front + b + back)[|front|..|front| + |a|] == b;
    }
  }

  lemma {:induction false} NothingWithoutCommit(start: Option<Stage>, ms: seq<Message>)
    requires NoCommit(ms)
    ensures Feed(start, ms).outputs == []
  {
    if ms != [] {
      assert ms[|ms| - 1] in ms;
      NothingWithoutCommit(start, ms[..|ms| - 1]);
    }
  }

  predicate NoCommit(ms: seq<Message>) { forall m :: m in ms ==> !m.Commit? }

  lemma NoCommitAppend(a: seq<Message>, b: seq<Message>)
    requires NoCommit(a) && NoCommit(b)
    ensures NoCommit(a + b)
  {
  }

  lemma {:induction false} NoCommitConditional(g: u8, r: u32, cells: seq<ConditionalCell>)
    ensures NoCommit(ReceivedConditional(g, r, cells))
  {
    if cells != [] { NoCommitConditional(g, r, cells[..|cells| - 1]); }
  }

  lemma OnlyTheLastCommits(g: u8, s: Snapshot, b: BatteryPair)
    ensures var W := ReceivedWalk(g, s, b);
            NoCommit(W[..|W| - 1])
  {
    var p, o, c, a := Prologue(g, s, b), CellPackets(g, s.revision, RightOverlay(s.overlay)),
      ScenePackets(g, s.revision, RightScenes(s.scenes.cells)), Announce(g, s);
    var q, W := ReceivedConditional(g, s.revision, RightConditional(s.conditional)), ReceivedWalk(g, s, b);
    CellPacketsKind(g, s.revision, RightOverlay(s.overlay));
    ScenePacketsKind(g, s.revision, RightScenes(s.scenes.cells));
    NoCommitConditional(g, s.revision, RightConditional(s.conditional));
    assert W[..|W| - 1] == p + o + c + a + q;
    assert NoCommit(p) && NoCommit(o) && NoCommit(c) && NoCommit(a);
    hide *;
    NoCommitAppend(p, o);
    NoCommitAppend(p + o, c);
    NoCommitAppend(p + o + c, a);
    NoCommitAppend(p + o + c + a, q);
  }

  lemma LosslessWire(g: u8, s: Snapshot, b: BatteryPair)
    requires CarriableSnapshot(s, b)
    ensures DecodeAll(EncodeAll(Walk(g, s, b))) == ReceivedWalk(g, s, b)
    ensures |ReceivedWalk(g, s, b)| == |Walk(g, s, b)|
  {
    WalkCarriable(g, s, b);
    LosslessDecode(Walk(g, s, b));
    CarriedWalk(g, s, b);
    CarriedLength(Walk(g, s, b));
  }

  lemma WalkBegins(g: u8, s: Snapshot, b: BatteryPair)
    ensures ReceivedWalk(g, s, b) != [] && ReceivedWalk(g, s, b)[0].Begin?
    ensures Subsequence(ReceivedWalk(g, s, b), ReceivedWalk(g, s, b))
  {
    SubsequenceSelf(ReceivedWalk(g, s, b));
  }

  /** Lossless refinement, codec included: whatever the stage held before, the
      bytes of the whole walk yield nothing until the commit, and then exactly
      the replica. */
  lemma LosslessRefinement(start: Option<Stage>, g: u8, s: Snapshot, b: BatteryPair)
    requires Queueable(s) && CarriableSnapshot(s, b)
    ensures var ms := DecodeAll(EncodeAll(Walk(g, s, b)));
            && |ms| == |Walk(g, s, b)| > 0
            && Feed(start, ms[..|ms| - 1]).outputs == []
            && Feed(start, ms).outputs == [Staged(g, Replica(s), b)]
  {
    hide Feed, Walk, ReceivedWalk, CarriableSnapshot, SolidCount, Queueable, Encode, Decode, Subsequence, Replica;
    var W := ReceivedWalk(g, s, b);
    LosslessWire(g, s, b);
    WalkBegins(g, s, b);
    OnlyTheLastCommits(g, s, b);
    NothingWithoutCommit(start, W[..|W| - 1]);
    LossSafety(start, W, g, s, b);
  }

  lemma {:induction false} CarriedLength(ms: seq<Message>)
    ensures |CarriedAll(ms)| == |ms|
  {
    if ms != [] { CarriedLength(ms[..|ms| - 1]); }
  }

  /** With no uncarried gate in use, that replica is the right half itself. */
  lemma LosslessRightHalf(start: Option<Stage>, g: u8, s: Snapshot, b: BatteryPair)
    requires Queueable(s) && CarriableSnapshot(s, b)
    ensures Feed(start, DecodeAll(EncodeAll(Walk(g, s, b)))).outputs == [Staged(g, RightHalf(s), b)]
            <==> forall c :: c in RightConditional(s.conditional) ==> NoUncarriedGates(c.conditions)
  {
    LosslessRefinement(start, g, s, b);
    ReplicaIsRightHalf(s);
    hide Feed, Walk, Queueable, CarriableSnapshot, RightHalf, Replica;
  }

  /** Loss safety on the wire: drop any packets of the encoded walk; what is
      left begins with the Begin or meets no stage of its own transaction. */
  lemma LossSafetyOnTheWire(start: Option<Stage>, packets: seq<seq<u8>>, g: u8, s: Snapshot, b: BatteryPair)
    requires Queueable(s) && CarriableSnapshot(s, b)
    requires Subsequence(packets, EncodeAll(Walk(g, s, b)))
    requires var ms := DecodeAll(packets);
             start.None? || !start.value.Of(g, s.revision) || (ms != [] && ms[0].Begin?)
    ensures LossyOutcome(Feed(start, DecodeAll(packets)).outputs, DecodeAll(packets), g, s, b)
  {
    WalkCarriable(g, s, b);
    LossyDecode(packets, Walk(g, s, b));
    CarriedWalk(g, s, b);
    LossSafety(start, DecodeAll(packets), g, s, b);
  }
}

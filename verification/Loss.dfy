/** What the peripheral ends up with when a transaction crosses a link that
    drops packets but never reorders them. */
module Loss {
  import opened Prelude
  import opened Boards
  import opened Lighting
  import opened Codec
  import opened CodecProofs
  import opened Staging
  import opened Transaction

  // ---- What the wire can carry ----

  predicate CarriableSnapshot(s: Snapshot, batteries: BatteryPair) {
    && (forall c :: c in RightOverlay(s.overlay) ==> WireSlot(c.slot) && CarriableEffect(c.effect))
    && (forall c :: c in RightScenes(s.scenes.cells) ==> WireSlot(c.slot) && CarriableEffect(c.effect))
    && (forall c :: c in RightConditional(s.conditional) ==>
          CarriableConditional(c) && CarriableConnection(c.conditions.connection))
    && CarriableParams(s.extensionParams) && CarriableParams(s.extensionOverlayParams)
    && CarriableBattery(batteries.left) && CarriableBattery(batteries.right)
  }

  /** The gates that cross: those of the cell packet plus the late ones. */
  function CarriedCell(c: ConditionalCell): ConditionalCell {
    c.(conditions := c.conditions.(layers := None, indicators := None, maintenance := None, splitTransport := None))
  }

  function CarriedCells(cells: seq<ConditionalCell>): (r: seq<ConditionalCell>)
    ensures |r| == |cells|
    ensures forall i :: 0 <= i < |cells| ==> r[i] == CarriedCell(cells[i])
  {
    seq(|cells|, i requires 0 <= i < |cells| => CarriedCell(cells[i]))
  }

  function PacketCell(c: ConditionalCell): ConditionalCell {
    c.(conditions := PacketGates(c.conditions))
  }

  /** The right half, less the gates no packet carries. */
  function Replica(s: Snapshot): Snapshot {
    RightHalf(s).(conditional := CarriedCells(RightConditional(s.conditional)))
  }

  predicate NoUncarriedGates(c: ConditionSet) {
    c.layers == None && c.indicators == None && c.maintenance == None && c.splitTransport == None
  }

  /** Nothing of the right half is left behind exactly when no right-half cell
      uses one of the four gates the packets have no room for. */
  lemma ReplicaIsRightHalf(s: Snapshot)
    ensures Replica(s) == RightHalf(s) <==>
            forall c :: c in RightConditional(s.conditional) ==> NoUncarriedGates(c.conditions)
  {
    var cells, carried := RightConditional(s.conditional), CarriedCells(RightConditional(s.conditional));
    if Replica(s) == RightHalf(s) {
      forall c | c in cells ensures NoUncarriedGates(c.conditions) {
        var i :| 0 <= i < |cells| && cells[i] == c;
        assert carried[i] == c;
      }
    }
    if forall c :: c in cells ==> NoUncarriedGates(c.conditions) {
      assert forall i :: 0 <= i < |cells| ==> cells[i] in cells && carried[i] == cells[i];
      assert carried == cells;
    }
  }

  // ---- The walk as the stager sees it ----

  function ReceivedConditional(g: u8, r: u32, cells: seq<ConditionalCell>): seq<Message> {
    if cells == [] then []
    else
      var last := cells[|cells| - 1];
      ReceivedConditional(g, r, cells[..|cells| - 1]) + [Conditional(g, r, PacketCell(last))] + ExtPackets(g, r, last)
  }

  function Announce(g: u8, s: Snapshot): seq<Message> {
    [ConditionalBegin(g, s.revision, SnapshotCounts(s).conditional % 256)]
  }

  function ReceivedWalk(g: u8, s: Snapshot, batteries: BatteryPair): seq<Message> {
    Prologue(g, s, batteries)
    + CellPackets(g, s.revision, RightOverlay(s.overlay))
    + ScenePackets(g, s.revision, RightScenes(s.scenes.cells))
    + Announce(g, s)
    + ReceivedConditional(g, s.revision, RightConditional(s.conditional))
    + Epilogue(g, s)
  }

  /** The walk of the same snapshot with its conditional section left out. */
  function WithoutConditional(g: u8, s: Snapshot, batteries: BatteryPair): seq<Message> {
    Prologue(g, s, batteries)
    + CellPackets(g, s.revision, RightOverlay(s.overlay))
    + ScenePackets(g, s.revision, RightScenes(s.scenes.cells))
    + Epilogue(g, s)
  }

  /** The messages some packets decode to; the rest are ignored. */
  function DecodeAll(packets: seq<seq<u8>>): seq<Message> {
    if packets == [] then []
    else
      DecodeAll(packets[..|packets| - 1])
      + match Decode(packets[|packets| - 1]) { case Ok(m) => [m] case Err(_) => [] }
  }

  predicate AllCarriable(ms: seq<Message>) { forall m :: m in ms ==> Carriable(m) }

  function CarriedAll(ms: seq<Message>): seq<Message> {
    if ms == [] then [] else CarriedAll(ms[..|ms| - 1]) + [Carried(ms[|ms| - 1])]
  }

  lemma {:induction false} CarriedAllAppend(a: seq<Message>, b: seq<Message>)
    ensures CarriedAll(a + b) == CarriedAll(a) + CarriedAll(b)
  {
    if b == [] {
      assert a + b == a;
    } else {
      assert (a + b)[..|a + b| - 1] == a + b[..|b| - 1];
      CarriedAllAppend(a, b[..|b| - 1]);
    }
  }

  lemma {:induction false} CarriedSame(ms: seq<Message>)
    requires forall m :: m in ms ==> !m.Conditional?
    ensures CarriedAll(ms) == ms
  {
    if ms != [] {
      CarriedSame(ms[..|ms| - 1]);
      assert ms == ms[..|ms| - 1] + [ms[|ms| - 1]];
    }
  }

  lemma {:induction false} CarriedConditionalPackets(g: u8, r: u32, cells: seq<ConditionalCell>)
    ensures CarriedAll(ConditionalPackets(g, r, cells)) == ReceivedConditional(g, r, cells)
  {
    if cells != [] {
      var last := cells[|cells| - 1];
      var init := ConditionalPackets(g, r, cells[..|cells| - 1]);
      CarriedConditionalPackets(g, r, cells[..|cells| - 1]);
      CarriedAllAppend(init, [Conditional(g, r, last)]);
      CarriedAllAppend(init + [Conditional(g, r, last)], ExtPackets(g, r, last));
      CarriedSame(ExtPackets(g, r, last));
      assert CarriedAll([Conditional(g, r, last)]) == [Conditional(g, r, PacketCell(last))] by {
        assert [Conditional(g, r, last)][..0] == [];
      }
    }
  }

  lemma {:induction false} CellPacketsKind(g: u8, r: u32, cells: seq<OverlayCell>)
    ensures forall m :: m in CellPackets(g, r, cells) ==>
      m.Cell? && m.cell in cells && m.generation == g && m.revision == r
  {
    if cells != [] { CellPacketsKind(g, r, cells[..|cells| - 1]); }
  }

  lemma {:induction false} ScenePacketsKind(g: u8, r: u32, cells: seq<SceneCell>)
    ensures forall m :: m in ScenePackets(g, r, cells) ==>
      m.TableCell? && m.sceneCell in cells && m.generation == g && m.revision == r
  {
    if cells != [] { ScenePacketsKind(g, r, cells[..|cells| - 1]); }
  }

  lemma {:induction false} ConditionalPacketsKind(g: u8, r: u32, cells: seq<ConditionalCell>)
    ensures forall m :: m in ConditionalPackets(g, r, cells) ==>
      || (m.Conditional? && m.conditionalCell in cells)
      || (m.ConditionalExt? && exists c :: c in cells && m.connection == c.conditions.connection)
  {
    if cells != [] { ConditionalPacketsKind(g, r, cells[..|cells| - 1]); }
  }

  lemma CarriedWalk(g: u8, s: Snapshot, batteries: BatteryPair)
    ensures CarriedAll(Walk(g, s, batteries)) == ReceivedWalk(g, s, batteries)
  {
    var p, o, c, a := Prologue(g, s, batteries), CellPackets(g, s.revision, RightOverlay(s.overlay)),
      ScenePackets(g, s.revision, RightScenes(s.scenes.cells)), Announce(g, s);
    var q, e := ConditionalPackets(g, s.revision, RightConditional(s.conditional)), Epilogue(g, s);
    CellPacketsKind(g, s.revision, RightOverlay(s.overlay));
    ScenePacketsKind(g, s.revision, RightScenes(s.scenes.cells));
    CarriedSame(p);
    CarriedSame(o);
    CarriedSame(c);
    CarriedSame(a);
    CarriedSame(e);
    CarriedConditionalPackets(g, s.revision, RightConditional(s.conditional));
    CarriedAllAppend(p, o);
    CarriedAllAppend(p + o, c);
    CarriedAllAppend(p + o + c, a);
    CarriedAllAppend(p + o + c + a, q);
    CarriedAllAppend(p + o + c + a + q, e);
  }

  lemma AllCarriableAppend(a: seq<Message>, b: seq<Message>)
    requires AllCarriable(a) && AllCarriable(b)
    ensures AllCarriable(a + b)
  {
  }

  lemma FramingCarriable(g: u8, s: Snapshot, batteries: BatteryPair)
    requires CarriableSnapshot(s, batteries)
    ensures AllCarriable(Prologue(g, s, batteries)) && AllCarriable(Announce(g, s)) && AllCarriable(Epilogue(g, s))
  {
  }

  lemma CellsCarriable(g: u8, s: Snapshot, batteries: BatteryPair)
    requires CarriableSnapshot(s, batteries)
    ensures AllCarriable(CellPackets(g, s.revision, RightOverlay(s.overlay)))
    ensures AllCarriable(ScenePackets(g, s.revision, RightScenes(s.scenes.cells)))
  {
    CellPacketsKind(g, s.revision, RightOverlay(s.overlay));
    ScenePacketsKind(g, s.revision, RightScenes(s.scenes.cells));
    hide RightOverlay, RightScenes, CellPackets, ScenePackets;
  }

  lemma ConditionalCarriable(g: u8, s: Snapshot, batteries: BatteryPair)
    requires CarriableSnapshot(s, batteries)
    ensures AllCarriable(ConditionalPackets(g, s.revision, RightConditional(s.conditional)))
  {
    ConditionalPacketsKind(g, s.revision, RightConditional(s.conditional));
    hide RightConditional, ConditionalPackets;
  }

  lemma WalkCarriable(g: u8, s: Snapshot, batteries: BatteryPair)
    requires CarriableSnapshot(s, batteries)
    ensures AllCarriable(Walk(g, s, batteries))
  {
    var p, o, c, a := Prologue(g, s, batteries), CellPackets(g, s.revision, RightOverlay(s.overlay)),
      ScenePackets(g, s.revision, RightScenes(s.scenes.cells)), Announce(g, s);
    var q, e := ConditionalPackets(g, s.revision, RightConditional(s.conditional)), Epilogue(g, s);
    FramingCarriable(g, s, batteries);
    CellsCarriable(g, s, batteries);
    ConditionalCarriable(g, s, batteries);
    assert Walk(g, s, batteries) == p + o + c + a + q + e;
    hide *;
    AllCarriableAppend(p, o);
    AllCarriableAppend(p + o, c);
    AllCarriableAppend(p + o + c, a);
    AllCarriableAppend(p + o + c + a, q);
    AllCarriableAppend(p + o + c + a + q, e);
  }

  /** Losing packets on the wire is losing messages of the received walk. */
  lemma {:induction false} LossyDecode(packets: seq<seq<u8>>, ms: seq<Message>)
    requires AllCarriable(ms) && Subsequence(packets, EncodeAll(ms))
    ensures Subsequence(DecodeAll(packets), CarriedAll(ms))
  {
    hide Encode, Decode, Carried, Carriable;
    if packets != [] {
      var init, last := ms[..|ms| - 1], ms[|ms| - 1];
      EncodeAllPrefix(ms, |ms| - 1);
      var rest := packets[..|packets| - 1];
      if Subsequence(packets, EncodeAll(init)) {
        LossyDecode(packets, init);
        SubsequenceSnoc(DecodeAll(packets), CarriedAll(init), Carried(last));
      } else {
        LossyDecode(rest, init);
        CodecCarries(last);
        SubsequenceSnoc(DecodeAll(rest), CarriedAll(init), Carried(last));
      }
    }
  }

  lemma {:induction false} LosslessDecode(ms: seq<Message>)
    requires AllCarriable(ms)
    ensures DecodeAll(EncodeAll(ms)) == CarriedAll(ms)
  {
    hide Encode, Decode, Carried, Carriable;
    if ms != [] {
      LosslessDecode(ms[..|ms| - 1]);
      EncodeAllPrefix(ms, |ms| - 1);
      CodecCarries(ms[|ms| - 1]);
    }
  }

  // ---- Splitting a lossy walk into its sections ----

  lemma {:induction false} SubsequenceSplit(part: seq<Message>, a: seq<Message>, b: seq<Message>)
    returns (l: seq<Message>, r: seq<Message>)
    requires Subsequence(part, a + b)
    ensures part == l + r && Subsequence(l, a) && Subsequence(r, b)
  {
    if b == [] {
      assert a + b == a;
      l, r := part, [];
    } else if part == [] {
      l, r := [], [];
    } else {
      var init, last := b[..|b| - 1], b[|b| - 1];
      assert (a + b)[..|a + b| - 1] == a + init;
      if Subsequence(part, a + init) {
        l, r := SubsequenceSplit(part, a, init);
        SubsequenceSnoc(r, init, last);
        assert b == init + [last];
      } else {
        l, r := SubsequenceSplit(part[..|part| - 1], a, init);
        SubsequenceSnoc(r, init, last);
        assert b == init + [last] && part == l + (r + [last]);
        r := r + [last];
      }
    }
  }

  lemma SubsequenceOfOne(part: seq<Message>, m: Message)
    requires Subsequence(part, [m])
    ensures part == [] || part == [m]
  {
    SubsequenceLength(part, [m]);
  }

  lemma {:induction false} SubsequenceMember(part: seq<Message>, whole: seq<Message>)
    requires Subsequence(part, whole)
    ensures forall m :: m in part ==> m in whole
  {
    if part != [] {
      var rest, init := part[..|part| - 1], whole[..|whole| - 1];
      if Subsequence(part, init) {
        SubsequenceMember(part, init);
      } else {
        SubsequenceMember(rest, init);
        assert part == rest + [part[|part| - 1]] && whole == init + [whole[|whole| - 1]];
      }
    }
  }

  lemma {:induction false} SubsequenceOfCells(part: seq<Message>, g: u8, r: u32, cells: seq<OverlayCell>)
    returns (sub: seq<OverlayCell>)
    requires Subsequence(part, CellPackets(g, r, cells))
    ensures part == CellPackets(g, r, sub) && Subsequence(sub, cells)
  {
    sub := [];
    if part != [] {
      var init, last := cells[..|cells| - 1], cells[|cells| - 1];
      var before := CellPackets(g, r, init);
      assert CellPackets(g, r, cells)[..|cells| - 1] == before;
      if Subsequence(part, before) {
        sub := SubsequenceOfCells(part, g, r, init);
        SubsequenceSnoc(sub, init, last);
      } else {
        var rest := SubsequenceOfCells(part[..|part| - 1], g, r, init);
        sub := rest + [last];
        SubsequenceSnoc(rest, init, last);
        assert sub[..|sub| - 1] == rest;
      }
      assert cells == init + [last];
    }
  }

  lemma {:induction false} SubsequenceOfScenes(part: seq<Message>, g: u8, r: u32, cells: seq<SceneCell>)
    returns (sub: seq<SceneCell>)
    requires Subsequence(part, ScenePackets(g, r, cells))
    ensures part == ScenePackets(g, r, sub) && Subsequence(sub, cells)
  {
    sub := [];
    if part != [] {
      var init, last := cells[..|cells| - 1], cells[|cells| - 1];
      var before := ScenePackets(g, r, init);
      assert ScenePackets(g, r, cells)[..|cells| - 1] == before;
      if Subsequence(part, before) {
        sub := SubsequenceOfScenes(part, g, r, init);
        SubsequenceSnoc(sub, init, last);
      } else {
        var rest := SubsequenceOfScenes(part[..|part| - 1], g, r, init);
        sub := rest + [last];
        SubsequenceSnoc(rest, init, last);
        assert sub[..|sub| - 1] == rest;
      }
      assert cells == init + [last];
    }
  }
}

/** One snapshot as a transaction of packets, and the bounded queue that takes
    all of it or none of it. */
module Transaction {
  import opened Prelude
  import opened Boards
  import opened Lighting
  import opened Codec

  datatype Counts = Counts(overlay: nat, scenes: nat, conditional: nat)

  function SnapshotCounts(s: Snapshot): Counts {
    Counts(|RightOverlay(s.overlay)|, |RightScenes(s.scenes.cells)|, |RightConditional(s.conditional)|)
  }

  predicate CountsInRange(s: Snapshot) {
    var counts := SnapshotCounts(s);
    counts.overlay <= LEDS_PER_HALF && counts.scenes <= SCENE_CAPACITY && counts.conditional <= SCENE_CAPACITY
  }

  // ---- The walk, as a list of messages ----

  function Prologue(g: u8, s: Snapshot, batteries: BatteryPair): seq<Message> {
    [Begin(g, s.revision, SnapshotCounts(s).overlay % 256, SnapshotCounts(s).scenes % 256, s.scenes.policy,
           s.sampleTimeMs, s.mutable, s.outputMode),
     WakeLayers(g, s.revision, s.wakeLayers),
     Context(g, s.revision, Replicated(s.context), batteries),
     Extension(g, s.revision, s.extension, s.extensionParams),
     ExtensionOverlay(g, s.revision,
       match s.extensionLayers { case None => None case Some(layers) => layers.overlay },
       s.extensionOverlayParams)]
  }

  function CellPackets(g: u8, r: u32, cells: seq<OverlayCell>): (ms: seq<Message>)
    ensures |ms| == |cells|
  {
    if cells == [] then []
    else CellPackets(g, r, cells[..|cells| - 1]) + [Cell(g, r, cells[|cells| - 1])]
  }

  function ScenePackets(g: u8, r: u32, cells: seq<SceneCell>): (ms: seq<Message>)
    ensures |ms| == |cells|
  {
    if cells == [] then []
    else ScenePackets(g, r, cells[..|cells| - 1]) + [TableCell(g, r, cells[|cells| - 1])]
  }

  predicate NeedsExt(cell: ConditionalCell) {
    cell.conditions.connection.Some? || cell.conditions.effects.Some?
  }

  function ExtPackets(g: u8, r: u32, cell: ConditionalCell): seq<Message> {
    if NeedsExt(cell) then [ConditionalExt(g, r, cell.conditions.connection, cell.conditions.effects)] else []
  }

  function ConditionalPackets(g: u8, r: u32, cells: seq<ConditionalCell>): (ms: seq<Message>)
    ensures |cells| <= |ms| <= 2 * |cells|
  {
    if cells == [] then []
    else
      var last := cells[|cells| - 1];
      ConditionalPackets(g, r, cells[..|cells| - 1]) + [Conditional(g, r, last)] + ExtPackets(g, r, last)
  }

  function Epilogue(g: u8, s: Snapshot): seq<Message> {
    [Commit(g, s.revision, SnapshotCounts(s).overlay % 256, SnapshotCounts(s).scenes % 256)]
  }

  function Walk(g: u8, s: Snapshot, batteries: BatteryPair): seq<Message> {
    Prologue(g, s, batteries)
    + CellPackets(g, s.revision, RightOverlay(s.overlay))
    + ScenePackets(g, s.revision, RightScenes(s.scenes.cells))
    + [ConditionalBegin(g, s.revision, SnapshotCounts(s).conditional % 256)]
    + ConditionalPackets(g, s.revision, RightConditional(s.conditional))
    + Epilogue(g, s)
  }

  function ExtCells(cells: seq<ConditionalCell>): (n: nat)
    ensures n <= |cells|
  {
    if cells == [] then 0
    else ExtCells(cells[..|cells| - 1]) + (if NeedsExt(cells[|cells| - 1]) then 1 else 0)
  }

  lemma {:induction false} ConditionalPacketCount(g: u8, r: u32, cells: seq<ConditionalCell>)
    ensures |ConditionalPackets(g, r, cells)| == |cells| + ExtCells(cells)
  {
    if cells != [] { ConditionalPacketCount(g, r, cells[..|cells| - 1]); }
  }

  /** Seven framing packets, one per right-half cell, one more per late gate. */
  lemma PacketCount(g: u8, s: Snapshot, batteries: BatteryPair)
    ensures var n := SnapshotCounts(s);
            |Walk(g, s, batteries)| ==
              7 + n.overlay + n.scenes + n.conditional + ExtCells(RightConditional(s.conditional))
    ensures CountsInRange(s) ==> |Walk(g, s, batteries)| <= 7 + LEDS_PER_HALF + 3 * SCENE_CAPACITY
  {
    ConditionalPacketCount(g, s.revision, RightConditional(s.conditional));
  }

  // ---- When the counts are in range ----

  function SlotsOf(cells: seq<OverlayCell>): set<int> { set c | c in cells :: c.slot as int }

  lemma {:induction false} SlotsAreDistinct(cells: seq<OverlayCell>)
    requires UniqueOverlay(cells)
    ensures |SlotsOf(cells)| == |cells|
  {
    if cells != [] {
      var init, last := cells[..|cells| - 1], cells[|cells| - 1];
      SlotsAreDistinct(init);
      assert cells == init + [last];
      assert SlotsOf(cells) == SlotsOf(init) + {last.slot as int};
    }
  }

  lemma {:induction false} IntervalSize(s: set<int>, low: int, high: int)
    requires low <= high && forall x :: x in s ==> low <= x < high
    ensures |s| <= high - low
    decreases high - low
  {
    if low < high { IntervalSize(s - {high - 1}, low, high - 1); }
  }

  lemma {:induction false} RightStaysUnique(cells: seq<OverlayCell>)
    requires UniqueOverlay(cells)
    ensures UniqueOverlay(RightOverlay(cells))
  {
    if cells != [] {
      var init := cells[..|cells| - 1];
      RightStaysUnique(init);
      forall i | 0 <= i < |RightOverlay(init)| ensures RightOverlay(init)[i].slot != cells[|cells| - 1].slot {
        assert RightOverlay(init)[i] in init;
      }
    }
  }

  /** The counts of a snapshot within its tables are in range: one overlay cell a
      slot, on the board, and no more scenes or conditional cells than a table
      holds. So such a snapshot is only ever refused for want of room. */
  lemma TablesInRange(s: Snapshot)
    requires UniqueOverlay(s.overlay) && forall c :: c in s.overlay ==> c.slot < TOTAL_LEDS
    requires |s.scenes.cells| <= SCENE_CAPACITY && |s.conditional| <= SCENE_CAPACITY
    ensures CountsInRange(s)
  {
    RightStaysUnique(s.overlay);
    SlotsAreDistinct(RightOverlay(s.overlay));
    IntervalSize(SlotsOf(RightOverlay(s.overlay)), LEDS_PER_HALF, TOTAL_LEDS);
  }

  // ---- Walking into a sink ----

  function EncodeAll(ms: seq<Message>): (r: seq<seq<u8>>)
    ensures |r| == |ms|
    ensures forall i :: 0 <= i < |ms| ==> r[i] == Encode(ms[i])
  {
    seq(|ms|, i requires 0 <= i < |ms| => Encode(ms[i]))
  }

  /** What a walk hands packets to: a bounded queue, or a bare counter when
      `capacity` is `None`. */
  class Sink {
    const capacity: Option<nat>
    var packets: seq<seq<u8>>

    constructor (capacity: Option<nat>)
      ensures this.capacity == capacity && packets == []
    {
      this.capacity := capacity;
      packets := [];
    }

    ghost predicate Valid()
      reads this
    {
      capacity.Some? ==> |packets| <= capacity.value
    }

    function Free(): (room: int)
      requires capacity.Some?
      reads this
    {
      capacity.value - |packets|
    }

    predicate Full()
      reads this
    {
      capacity.Some? && |packets| >= capacity.value
    }

    method Offer(m: Message) returns (taken: bool)
      requires Valid()
      modifies this
      ensures Valid()
      ensures taken <==> !old(Full())
      ensures packets == if taken then old(packets) + [Encode(m)] else old(packets)
    {
      taken := !Full();
      if taken { packets := packets + [Encode(m)]; }
    }
  }

  lemma EncodeAllSnoc(ms: seq<Message>, m: Message)
    ensures EncodeAll(ms + [m]) == EncodeAll(ms) + [Encode(m)]
  {
    hide Encode;
  }

  lemma EncodeAllPrefix(ms: seq<Message>, n: nat)
    requires n <= |ms|
    ensures EncodeAll(ms[..n]) == EncodeAll(ms)[..n]
  {
    hide Encode;
  }

  lemma {:induction false} CellPacketsPrefix(g: u8, r: u32, cells: seq<OverlayCell>, n: nat)
    requires n <= |cells|
    ensures CellPackets(g, r, cells[..n]) == CellPackets(g, r, cells)[..n]
    decreases |cells| - n
  {
    if n < |cells| {
      CellPacketsPrefix(g, r, cells, n + 1);
      assert cells[..n + 1][..n] == cells[..n];
    } else {
      assert cells[..n] == cells;
    }
  }

  lemma {:induction false} ScenePacketsPrefix(g: u8, r: u32, cells: seq<SceneCell>, n: nat)
    requires n <= |cells|
    ensures ScenePackets(g, r, cells[..n]) == ScenePackets(g, r, cells)[..n]
    decreases |cells| - n
  {
    if n < |cells| {
      ScenePacketsPrefix(g, r, cells, n + 1);
      assert cells[..n + 1][..n] == cells[..n];
    } else {
      assert cells[..n] == cells;
    }
  }

  lemma {:induction false} ConditionalPacketsPrefix(g: u8, r: u32, cells: seq<ConditionalCell>, n: nat)
    requires n <= |cells|
    ensures ConditionalPackets(g, r, cells[..n]) <= ConditionalPackets(g, r, cells)
    ensures n < |cells| ==>
      ConditionalPackets(g, r, cells[..n]) + [Conditional(g, r, cells[n])] + ExtPackets(g, r, cells[n])
      == ConditionalPackets(g, r, cells[..n + 1])
    decreases |cells| - n
  {
    hide ExtPackets;
    if n < |cells| {
      ConditionalPacketsPrefix(g, r, cells, n + 1);
      assert cells[..n + 1][..n] == cells[..n];
    } else {
      assert cells[..n] == cells;
    }
  }

  /** Where the packets of cell `i` sit among those of all the cells. */
  lemma ConditionalSlice(g: u8, r: u32, cells: seq<ConditionalCell>, i: nat)
    requires i < |cells|
    ensures var all := ConditionalPackets(g, r, cells);
            var n := |ConditionalPackets(g, r, cells[..i])|;
            var next := n + 1 + BoolByte(NeedsExt(cells[i]));
            && next == |ConditionalPackets(g, r, cells[..i + 1])| <= |all|
            && all[n] == Conditional(g, r, cells[i])
            && (NeedsExt(cells[i]) ==>
                  all[n + 1] == ConditionalExt(g, r, cells[i].conditions.connection, cells[i].conditions.effects))
  {
    ConditionalPacketsPrefix(g, r, cells, i);
    ConditionalPacketsPrefix(g, r, cells, i + 1);
    var upTo := ConditionalPackets(g, r, cells[..i + 1]);
    var n := |ConditionalPackets(g, r, cells[..i])|;
    assert upTo[n] == ConditionalPackets(g, r, cells)[n];
    assert NeedsExt(cells[i]) ==> upTo[n + 1] == ConditionalPackets(g, r, cells)[n + 1];
  }

  /** Everything in `done` has been taken on top of `start`. */
  ghost predicate Taken(sink: Sink, start: seq<seq<u8>>, done: seq<Message>)
    reads sink
  {
    sink.Valid() && sink.packets == start + EncodeAll(done)
  }

  /** The sink filled up inside `whole`: it holds as much of it as fits. */
  ghost predicate Stopped(sink: Sink, start: seq<seq<u8>>, whole: seq<Message>)
    reads sink
  {
    && sink.Valid()
    && sink.capacity.Some?
    && |start| <= sink.capacity.value < |start| + |whole|
    && sink.packets == start + EncodeAll(whole)[..sink.capacity.value - |start|]
  }

  /** One packet of a walk, after `done` and before `rest`. */
  method Step(sink: Sink, m: Message, ghost start: seq<seq<u8>>, ghost done: seq<Message>, ghost rest: seq<Message>)
    returns (taken: bool)
    requires Taken(sink, start, done)
    modifies sink
    ensures taken ==> Taken(sink, start, done + [m])
    ensures !taken ==> Stopped(sink, start, done + [m] + rest)
  {
    hide Encode;
    taken := sink.Offer(m);
    EncodeAllSnoc(done, m);
    if !taken {
      ghost var whole := done + [m] + rest;
      assert done == whole[..|done|];
      EncodeAllPrefix(whole, |done|);
    }
  }

  method WalkPrologue(prologue: seq<Message>, sink: Sink, ghost start: seq<seq<u8>>, ghost rest: seq<Message>)
    returns (ok: bool)
    requires Taken(sink, start, [])
    modifies sink
    ensures ok ==> Taken(sink, start, prologue)
    ensures !ok ==> Stopped(sink, start, prologue + rest)
  {
    hide Taken, Stopped, Encode, EncodeAll;
    ok := true;
    for i := 0 to |prologue|
      invariant ok && Taken(sink, start, prologue[..i])
    {
      assert prologue[..i + 1] == prologue[..i] + [prologue[i]];
      ok := Step(sink, prologue[i], start, prologue[..i], prologue[i + 1..] + rest);
      if !ok {
        assert prologue[..i] + [prologue[i]] + (prologue[i + 1..] + rest) == prologue + rest;
        return;
      }
    }
    assert prologue[..|prologue|] == prologue;
  }

  method WalkOverlay(g: u8, r: u32, cells: seq<OverlayCell>, sink: Sink, ghost start: seq<seq<u8>>,
                     ghost before: seq<Message>, ghost rest: seq<Message>) returns (ok: bool)
    requires Taken(sink, start, before)
    modifies sink
    ensures ok ==> Taken(sink, start, before + CellPackets(g, r, cells))
    ensures !ok ==> Stopped(sink, start, before + CellPackets(g, r, cells) + rest)
  {
    hide Taken, Stopped, Encode, EncodeAll;
    ok := true;
    ghost var all := CellPackets(g, r, cells);
    assert before + all[..0] == before;
    for i := 0 to |cells|
      invariant ok && Taken(sink, start, before + all[..i])
    {
      CellPacketsPrefix(g, r, cells, i + 1);
      assert all[i] == Cell(g, r, cells[i]) && before + all[..i] + [all[i]] == before + all[..i + 1];
      ok := Step(sink, Cell(g, r, cells[i]), start, before + all[..i], all[i + 1..] + rest);
      if !ok {
        assert before + all[..i] + [all[i]] + (all[i + 1..] + rest) == before + all + rest;
        return;
      }
    }
    assert all[..|cells|] == all;
  }

  method WalkScenes(g: u8, r: u32, cells: seq<SceneCell>, sink: Sink, ghost start: seq<seq<u8>>,
                    ghost before: seq<Message>, ghost rest: seq<Message>) returns (ok: bool)
    requires Taken(sink, start, before)
    modifies sink
    ensures ok ==> Taken(sink, start, before + ScenePackets(g, r, cells))
    ensures !ok ==> Stopped(sink, start, before + ScenePackets(g, r, cells) + rest)
  {
    hide Taken, Stopped, Encode, EncodeAll;
    ok := true;
    ghost var all := ScenePackets(g, r, cells);
    assert before + all[..0] == before;
    for i := 0 to |cells|
      invariant ok && Taken(sink, start, before + all[..i])
    {
      ScenePacketsPrefix(g, r, cells, i + 1);
      assert all[i] == TableCell(g, r, cells[i]) && before + all[..i] + [all[i]] == before + all[..i + 1];
      ok := Step(sink, TableCell(g, r, cells[i]), start, before + all[..i], all[i + 1..] + rest);
      if !ok {
        assert before + all[..i] + [all[i]] + (all[i + 1..] + rest) == before + all + rest;
        return;
      }
    }
    assert all[..|cells|] == all;
  }

  method WalkConditional(g: u8, r: u32, cells: seq<ConditionalCell>, sink: Sink, ghost start: seq<seq<u8>>,
                         ghost before: seq<Message>, ghost rest: seq<Message>) returns (ok: bool)
    requires Taken(sink, start, before)
    modifies sink
    ensures ok ==> Taken(sink, start, before + ConditionalPackets(g, r, cells))
    ensures !ok ==> Stopped(sink, start, before + ConditionalPackets(g, r, cells) + rest)
  {
    hide Taken, Stopped, Encode, EncodeAll, ConditionalPackets;
    ok := true;
    ghost var all := ConditionalPackets(g, r, cells);
    ghost var n := 0;
    assert |ConditionalPackets(g, r, cells[..0])| == 0 && before + all[..0] == before;
    for i := 0 to |cells|
      invariant ok && n == |ConditionalPackets(g, r, cells[..i])| <= |all|
      invariant Taken(sink, start, before + all[..n])
    {
      ConditionalSlice(g, r, cells, i);
      var cell := cells[i];
      assert before + all[..n] + [all[n]] == before + all[..n + 1];
      assert before + all[..n + 1] + (all[n + 1..] + rest) == before + all + rest;
      ok := Step(sink, Conditional(g, r, cell), start, before + all[..n], all[n + 1..] + rest);
      if !ok { return; }
      n := n + 1;
      if NeedsExt(cell) {
        assert before + all[..n] + [all[n]] == before + all[..n + 1];
        assert before + all[..n + 1] + (all[n + 1..] + rest) == before + all + rest;
        ok := Step(sink, ConditionalExt(g, r, cell.conditions.connection, cell.conditions.effects), start,
                   before + all[..n], all[n + 1..] + rest);
        if !ok { return; }
        n := n + 1;
      }
    }
    assert cells[..|cells|] == cells && all[..n] == all;
  }

  /** Hand every packet of the transaction to the sink in wire order, stopping
      at the first one it refuses. */
  method WalkSnapshot(g: u8, s: Snapshot, batteries: BatteryPair, counts: Counts, sink: Sink) returns (ok: bool)
    requires sink.Valid() && counts == SnapshotCounts(s)
    modifies sink
    ensures ok ==> Taken(sink, old(sink.packets), Walk(g, s, batteries))
    ensures !ok ==> Stopped(sink, old(sink.packets), Walk(g, s, batteries))
  {
    var r := s.revision;
    ghost var start := sink.packets;
    assert Taken(sink, start, []) by { assert EncodeAll([]) == []; }
    hide Taken, Stopped, Encode, EncodeAll;
    var overlay, scenes, conditional :=
      RightOverlay(s.overlay), RightScenes(s.scenes.cells), RightConditional(s.conditional);
    var prologue := Prologue(g, s, batteries);
    var announce := ConditionalBegin(g, r, counts.conditional % 256);
    ghost var p1, p2, p3 := CellPackets(g, r, overlay), ScenePackets(g, r, scenes), ConditionalPackets(g, r,
      conditional);
    ghost var whole, tail := Walk(g, s, batteries), Epilogue(g, s);
    assert whole == prologue + p1 + p2 + [announce] + p3 + tail;
    hide Walk, Prologue, CellPackets, ScenePackets, ConditionalPackets;

    Regroup(prologue, p1, p2, [announce], p3, tail);
    ok := WalkPrologue(prologue, sink, start, p1 + p2 + [announce] + p3 + tail);
    if !ok { return; }
    ok := WalkOverlay(g, r, overlay, sink, start, prologue, p2 + [announce] + p3 + tail);
    if !ok { return; }
    ok := WalkScenes(g, r, scenes, sink, start, prologue + p1, [announce] + p3 + tail);
    if !ok { return; }
    ok := Step(sink, announce, start, prologue + p1 + p2, p3 + tail);
    if !ok { return; }
    ok := WalkConditional(g, r, conditional, sink, start, prologue + p1 + p2 + [announce], tail);
    if !ok { return; }
    ok := Step(sink, Commit(g, r, counts.overlay % 256, counts.scenes % 256), start,
               prologue + p1 + p2 + [announce] + p3, []);
  }

  lemma Regroup(a: seq<Message>, b: seq<Message>, c: seq<Message>, d: seq<Message>, e: seq<Message>, f: seq<Message>)
    ensures var whole := a + b + c + d + e + f;
            && a + (b + c + d + e + f) == whole
            && a + b + (c + d + e + f) == whole
            && a + b + c + (d + e + f) == whole
            && a + b + c + d + (e + f) == whole
            && whole + [] == whole
  {
  }

  /** Queue one complete snapshot, or nothing at all. */
  method TryQueueSnapshot(g: u8, s: Snapshot, batteries: BatteryPair, tx: Sink) returns (queued: bool)
    requires tx.Valid() && tx.capacity.Some?
    modifies tx
    ensures tx.Valid()
    ensures queued <==> CountsInRange(s) && |old(tx.packets)| + |Walk(g, s, batteries)| <= tx.capacity.value
    ensures queued ==>
      && |RightOverlay(s.overlay)| <= LEDS_PER_HALF
      && |RightScenes(s.scenes.cells)| <= SCENE_CAPACITY && |RightConditional(s.conditional)| <= SCENE_CAPACITY
    ensures tx.packets == if queued then old(tx.packets) + EncodeAll(Walk(g, s, batteries)) else old(tx.packets)
  {
    hide Encode;
    var counts := SnapshotCounts(s);
    if counts.overlay > LEDS_PER_HALF || counts.scenes > SCENE_CAPACITY || counts.conditional > SCENE_CAPACITY {
      return false;
    }
    var counter := new Sink(None);
    var _ := WalkSnapshot(g, s, batteries, counts, counter);
    if tx.Free() < |counter.packets| {
      return false;
    }
    queued := WalkSnapshot(g, s, batteries, counts, tx);
  }

  /** A drained queue of 7 + LEDS_PER_HALF + 3 * SCENE_CAPACITY always takes an
      in-range snapshot. */
  method QueueIntoDrained(g: u8, s: Snapshot, batteries: BatteryPair, tx: Sink) returns (queued: bool)
    requires tx.capacity.Some? && tx.packets == [] && CountsInRange(s)
    requires tx.capacity.value >= 7 + LEDS_PER_HALF + 3 * SCENE_CAPACITY
    modifies tx
    ensures queued && tx.packets == EncodeAll(Walk(g, s, batteries))
  {
    hide Walk, Encode;
    PacketCount(g, s, batteries);
    queued := TryQueueSnapshot(g, s, batteries, tx);
  }
}

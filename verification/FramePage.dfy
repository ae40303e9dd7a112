/** Assembly of one page of a remote frame from four-cell chunks. */
module FramePages {
  import opened Prelude
  import opened Boards
  import opened Lighting
  import opened Codec

  datatype ChunkDecision = Accepted | Complete | Restart | Invalid

  /** The assembly, with its cells as the prefix that is filled. */
  datatype Page = Page(start: u16, revision: Option<u32>, total: u16, initialized: bool, cells: seq<Rgb8>)

  function SaturatingAdd16(a: int, b: int): int { Min(a + b, 65535) }

  function SaturatingSub(a: int, b: int): int { Max(a - b, 0) }

  function EmptyPage(start: u16): Page { Page(start, None, 0, false, []) }

  function Wanted(p: Page, total: u16, start: u16): int {
    Min(Min(SaturatingSub(total, start), FRAME_CHUNK_CELLS), FRAME_CHUNK_SIZE - |p.cells|)
  }

  function AcceptChunk(p: Page, m: Message): (Page, ChunkDecision)
    requires |p.cells| <= FRAME_CHUNK_SIZE
  {
    if !m.FrameChunk? then (p, Invalid)
    else if m.start != SaturatingAdd16(p.start, |p.cells|) || m.len > FRAME_CHUNK_CELLS then (p, Invalid)
    else if p.initialized && (p.total != m.total || p.revision != m.chunkRevision) then (p, Restart)
    else
      var q := p.(initialized := true, total := m.total, revision := m.chunkRevision);
      var wanted := Wanted(p, m.total, m.start);
      if m.len != wanted then (q, Invalid)
      else
        var next := q.(cells := q.cells + m.cells[..wanted]);
        (next,
         if |next.cells| == FRAME_CHUNK_SIZE || SaturatingAdd16(m.start, wanted) >= m.total then Complete
         else Accepted)
  }

  class FramePageAssembly {
    const start: u16
    var revision: Option<u32>
    var total: u16
    var initialized: bool
    var len: nat
    const cells: array<Rgb8>

    ghost predicate Valid()
      reads this
    {
      cells.Length == FRAME_CHUNK_SIZE && len <= FRAME_CHUNK_SIZE
    }

    ghost function State(): Page
      requires Valid()
      reads this, cells
    {
      Page(start, revision, total, initialized, cells[..len])
    }

    constructor (start: u16)
      ensures Valid() && fresh(cells) && State() == EmptyPage(start)
    {
      this.start := start;
      revision, total, initialized, len := None, 0, false, 0;
      cells := new Rgb8[FRAME_CHUNK_SIZE](_ => Rgb8(0, 0, 0));
    }

    method Accept(m: Message) returns (decision: ChunkDecision)
      requires Valid()
      modifies this, cells
      ensures Valid()
      ensures (State(), decision) == AcceptChunk(old(State()), m)
    {
      if !m.FrameChunk? {
        return Invalid;
      }
      if m.start != SaturatingAdd16(start, len) || m.len > FRAME_CHUNK_CELLS {
        return Invalid;
      }
      if initialized && (total != m.total || revision != m.chunkRevision) {
        return Restart;
      }
      ghost var before := State();
      initialized, total, revision := true, m.total, m.chunkRevision;
      var remaining := SaturatingSub(m.total, m.start);
      var wanted := Min(Min(remaining, FRAME_CHUNK_CELLS), FRAME_CHUNK_SIZE - len);
      if m.len != wanted {
        return Invalid;
      }
      for i := 0 to wanted
        invariant len + wanted <= cells.Length
        invariant cells[..len + i] == before.cells + m.cells[..i]
        invariant len == old(len) && initialized && total == m.total && revision == m.chunkRevision
      {
        cells[len + i] := m.cells[i];
        assert cells[..len + (i + 1)] == cells[..len + i] + [m.cells[i]];
        assert m.cells[..i + 1] == m.cells[..i] + [m.cells[i]];
      }
      len := len + wanted;
      decision := if len == FRAME_CHUNK_SIZE || SaturatingAdd16(m.start, wanted) >= m.total then Complete else Accepted;
    }
  }

  // ---- Over any run of accepted chunks ----

  /** A run in which every chunk but perhaps the last is accepted. */
  ghost predicate Assembles(p: Page, chunks: seq<Message>, q: Page)
    requires |p.cells| <= FRAME_CHUNK_SIZE
    decreases |chunks|
  {
    if chunks == [] then p == q
    else
      var last := chunks[|chunks| - 1];
      exists mid: Page :: |mid.cells| <= FRAME_CHUNK_SIZE && Assembles(p, chunks[..|chunks| - 1], mid)
        && AcceptChunk(mid, last) == (q, Accepted)
  }

  predicate AllChunks(ms: seq<Message>) { forall m :: m in ms ==> m.FrameChunk? && m.len <= FRAME_CHUNK_CELLS }

  /** The cells some chunks carry, end to end. */
  function Concatenation(chunks: seq<Message>): seq<Rgb8>
    requires AllChunks(chunks)
  {
    if chunks == [] then []
    else Concatenation(chunks[..|chunks| - 1]) + chunks[|chunks| - 1].cells[..chunks[|chunks| - 1].len]
  }

  /** Each chunk continues where the one before it ended, and all of them share
      one revision and total. */
  predicate Contiguous(chunks: seq<Message>, start: nat)
    requires AllChunks(chunks)
  {
    chunks == [] ||
    var init, last := chunks[..|chunks| - 1], chunks[|chunks| - 1];
    && Contiguous(init, start)
    && last.start == start + |Concatenation(init)|
    && (init != [] ==>
         last.total == init[|init| - 1].total && last.chunkRevision == init[|init| - 1].chunkRevision)
  }

  lemma AcceptedStep(p: Page, m: Message, q: Page)
    requires |p.cells| <= FRAME_CHUNK_SIZE && AcceptChunk(p, m) == (q, Accepted)
    ensures m.FrameChunk? && m.len <= FRAME_CHUNK_CELLS && q.total == m.total && q.revision == m.chunkRevision
    ensures p.initialized ==> p.total == q.total && p.revision == q.revision
    ensures q.initialized && q.start == p.start && q.cells == p.cells + m.cells[..m.len]
    ensures |q.cells| < FRAME_CHUNK_SIZE && m.start == SaturatingAdd16(p.start, |p.cells|)
    ensures m.len == Wanted(p, m.total, m.start) && SaturatingAdd16(m.start, m.len) < m.total
  {
  }

  lemma RunSnoc(init: seq<Message>, last: Message, start: nat)
    requires AllChunks(init) && last.FrameChunk? && last.len <= FRAME_CHUNK_CELLS
    ensures AllChunks(init + [last])
    ensures Concatenation(init + [last]) == Concatenation(init) + last.cells[..last.len]
    ensures Contiguous(init, start) && last.start == start + |Concatenation(init)|
            && (init != [] ==>
                 last.total == init[|init| - 1].total && last.chunkRevision == init[|init| - 1].chunkRevision)
            ==> Contiguous(init + [last], start)
  {
    assert (init + [last])[..|init|] == init;
  }

  /** What an assembly holds after any accepted run: the concatenation of
      contiguous chunks of one revision and total, strictly inside the page. */
  lemma {:induction false} AcceptedRun(start: u16, chunks: seq<Message>, q: Page)
    requires Assembles(EmptyPage(start), chunks, q)
    ensures AllChunks(chunks)
    ensures Contiguous(chunks, start)
    ensures q.start == start && q.cells == Concatenation(chunks)
    ensures |q.cells| < FRAME_CHUNK_SIZE
    ensures q.initialized <==> chunks != []
    ensures chunks != [] ==>
      && q.total == chunks[|chunks| - 1].total && q.revision == chunks[|chunks| - 1].chunkRevision
      && start + |q.cells| < q.total
    decreases |chunks|
  {
    if chunks != [] {
      var init, last := chunks[..|chunks| - 1], chunks[|chunks| - 1];
      assert chunks == init + [last];
      var mid: Page :| |mid.cells| <= FRAME_CHUNK_SIZE && Assembles(EmptyPage(start), init, mid)
                 && AcceptChunk(mid, last) == (q, Accepted);
      hide AcceptChunk, Assembles, Contiguous, Concatenation, AllChunks;
      AcceptedRun(start, init, mid);
      AcceptedStep(mid, last, q);
      RunSnoc(init, last, start);
    }
  }

  /** Every acceptance makes the page longer: the page loop's measure. */
  lemma AcceptedGrows(p: Page, m: Message)
    requires |p.cells| <= FRAME_CHUNK_SIZE
    requires AcceptChunk(p, m).1 == Accepted
    ensures |p.cells| < |AcceptChunk(p, m).0.cells| < FRAME_CHUNK_SIZE
  {
  }

  function FullLength(total: u16, start: u16): int { Min(FRAME_CHUNK_SIZE, SaturatingSub(total, start)) }

  /** Completion happens exactly when the chunk brings the page to its full
      length: the page size or what is left of the frame, nothing when the
      page starts past the end. */
  lemma CompleteExactly(start: u16, chunks: seq<Message>, p: Page, m: Message)
    requires Assembles(EmptyPage(start), chunks, p) && |p.cells| <= FRAME_CHUNK_SIZE
    ensures AllChunks(chunks)
    ensures var (q, decision) := AcceptChunk(p, m);
            decision == Accepted || decision == Complete ==>
              && m.FrameChunk? && m.len <= FRAME_CHUNK_CELLS
              && q.cells == Concatenation(chunks) + m.cells[..m.len]
              && m.start == start + |Concatenation(chunks)|
              && (chunks != [] ==> m.total == p.total && m.chunkRevision == p.revision)
              && q.total == m.total && q.revision == m.chunkRevision
              && |q.cells| <= FullLength(m.total, start)
              && (decision == Complete <==> |q.cells| == FullLength(m.total, start))
  {
    AcceptedRun(start, chunks, p);
  }

  function Least(a: int, b: int, c: int): int { if a <= b && a <= c then a else if b <= c then b else c }

  /** When a chunk is taken, after any accepted run: exactly when it continues
      the page, is of the same revision and total as the chunks before it, and
      holds as many cells as a chunk can, the frame still has, and the page still
      wants. What it is then taken for, and what it leaves. */
  lemma TakenExactly(start: u16, chunks: seq<Message>, p: Page, m: Message)
    requires Assembles(EmptyPage(start), chunks, p) && |p.cells| <= FRAME_CHUNK_SIZE
    ensures var (q, decision) := AcceptChunk(p, m);
            && (decision == Accepted || decision == Complete <==>
                 && m.FrameChunk? && m.start == Min(start + |p.cells|, 65535)
                 && (chunks != [] ==> m.total == p.total && m.chunkRevision == p.revision)
                 && m.len == Least(4, if m.total > m.start then m.total - m.start else 0,
                                   FRAME_CHUNK_SIZE - |p.cells|))
            && (decision == Accepted || decision == Complete ==>
                 q == Page(start, m.chunkRevision, m.total, true, p.cells + m.cells[..m.len]))
            && (decision == Restart <==>
                 && m.FrameChunk? && m.len <= 4 && m.start == Min(start + |p.cells|, 65535)
                 && chunks != [] && (m.total != p.total || m.chunkRevision != p.revision))
  {
    AcceptedRun(start, chunks, p);
  }

  // ---- The reader ----

  datatype Attempt = Whole(page: Page) | Torn | Failed

  /** How the reply after an accepted run ends a pass. */
  predicate Ending(mid: Page, reply: Option<Message>, result: Attempt)
    requires |mid.cells| <= FRAME_CHUNK_SIZE
  {
    match result
    case Whole(page) => reply.Some? && AcceptChunk(mid, reply.value) == (page, Complete)
    case Torn => reply.Some? && AcceptChunk(mid, reply.value).1 == Restart
    case Failed => reply.None? || AcceptChunk(mid, reply.value).1 == Invalid
  }

  /** A pass over a page: every reply but the last was accepted, and the last
      completed the page, tore it, or failed the read. */
  ghost predicate PassEnds(offset: u16, seen: seq<Option<Message>>, result: Attempt) {
    seen != [] &&
    var init, last := seen[..|seen| - 1], seen[|seen| - 1];
    && Answered(init)
    && exists mid: Page :: |mid.cells| <= FRAME_CHUNK_SIZE && Assembles(EmptyPage(offset), Values(init), mid)
         && Ending(mid, last, result)
  }

  /** The first `n` replies were accepted and made the page `mid`. */
  ghost predicate Passing(offset: u16, replies: seq<Option<Message>>, n: nat, mid: Page) {
    && n <= |replies| && |mid.cells| < FRAME_CHUNK_SIZE && Answered(replies[..n])
    && Assembles(EmptyPage(offset), Values(replies[..n]), mid)
  }

  lemma PassStarts(offset: u16, replies: seq<Option<Message>>)
    ensures Passing(offset, replies, 0, EmptyPage(offset))
  {
    assert Values(replies[..0]) == [];
  }

  lemma PassGoesOn(offset: u16, replies: seq<Option<Message>>, n: nat, mid: Page, next: Page)
    requires Passing(offset, replies, n, mid) && n < |replies| && replies[n].Some?
    requires AcceptChunk(mid, replies[n].value) == (next, Accepted)
    ensures Passing(offset, replies, n + 1, next) && |next.cells| > |mid.cells|
  {
    hide AcceptChunk, Values, Assembles;
    AnsweredSnoc(replies, n);
    AcceptedGrows(mid, replies[n].value);
    AssemblesSnoc(EmptyPage(offset), Values(replies[..n]), mid, replies[n].value, next);
  }

  lemma EndsPass(offset: u16, replies: seq<Option<Message>>, n: nat, mid: Page, result: Attempt)
    requires Passing(offset, replies, n, mid) && n < |replies| && Ending(mid, replies[n], result)
    ensures PassEnds(offset, replies[..n + 1], result)
  {
    hide Assembles, Values, Answered, Ending;
    assert replies[..n + 1][..n] == replies[..n];
  }

  /** One pass over a page, from the first reply on. */
  method ReadAttempt(offset: u16, replies: seq<Option<Message>>) returns (result: Attempt, used: nat)
    requires |replies| >= FRAME_CHUNK_SIZE
    ensures used <= FRAME_CHUNK_SIZE && PassEnds(offset, replies[..used], result)
  {
    hide Passing, PassEnds, AcceptChunk;
    used := 0;
    var assembly := new FramePageAssembly(offset);
    PassStarts(offset, replies);
    while true
      invariant assembly.Valid() && fresh(assembly) && fresh(assembly.cells)
      invariant used <= assembly.len < FRAME_CHUNK_SIZE
      invariant Passing(offset, replies, used, assembly.State())
      decreases FRAME_CHUNK_SIZE - assembly.len
    {
      var reply := replies[used];
      ghost var before := assembly.State();
      if reply.None? {
        EndsPass(offset, replies, used, before, Failed);
        return Failed, used + 1;
      }
      var decision := assembly.Accept(reply.value);
      match decision {
        case Accepted =>
          AcceptedGrows(before, reply.value);
          PassGoesOn(offset, replies, used, before, assembly.State());
          used := used + 1;
        case Complete =>
          var page := Page(assembly.start, assembly.revision, assembly.total, assembly.initialized,
                           assembly.cells[..assembly.len]);
          EndsPass(offset, replies, used, before, Whole(page));
          return Whole(page), used + 1;
        case Restart =>
          EndsPass(offset, replies, used, before, Torn);
          return Torn, used + 1;
        case Invalid =>
          EndsPass(offset, replies, used, before, Failed);
          return Failed, used + 1;
      }
    }
  }

  /** One pass decided the read. */
  ghost predicate Decides(offset: u16, seen: seq<Option<Message>>, page: Option<Page>) {
    PassEnds(offset, seen, if page.Some? then Whole(page.value) else Failed)
  }

  /** What a read of the replies `seen` returns: what its first pass decided;
      nothing when that one was torn and the deadline passed; otherwise what a
      second pass decided, nothing when that one was torn too. */
  ghost predicate ReadOutcome(offset: u16, seen: seq<Option<Message>>, late: bool, page: Option<Page>) {
    || Decides(offset, seen, page)
    || (late && page.None? && PassEnds(offset, seen, Torn))
    || (!late && exists first :: 0 <= first <= |seen| && SecondPass(offset, seen[..first], seen[first..], page))
  }

  ghost predicate SecondPass(offset: u16, torn: seq<Option<Message>>, seen: seq<Option<Message>>, page: Option<Page>) {
    && PassEnds(offset, torn, Torn)
    && (Decides(offset, seen, page) || (page.None? && PassEnds(offset, seen, Torn)))
  }

  /** One page read over the link, in at most two passes. `replies` are the
      answers of the successive chunk requests, `None` for one that timed out;
      `late` says whether the deadline had passed when a torn page was about to
      be read again. */
  method ReadPage(offset: u16, replies: seq<Option<Message>>, late: bool) returns (page: Option<Page>, used: nat)
    requires |replies| >= 2 * FRAME_CHUNK_SIZE
    ensures used <= 2 * FRAME_CHUNK_SIZE && ReadOutcome(offset, replies[..used], late, page)
  {
    hide PassEnds;
    used := 0;
    for attempt := 0 to 2
      invariant used <= attempt * FRAME_CHUNK_SIZE
      invariant attempt == 1 ==> !late && PassEnds(offset, replies[..used], Torn)
      invariant attempt == 2 ==> ReadOutcome(offset, replies[..used], late, None)
    {
      var first := used;
      var result, n := ReadAttempt(offset, replies[first..]);
      used := first + n;
      assert replies[first..][..n] == replies[..used][first..] && replies[..used][..first] == replies[..first];
      assert attempt == 0 ==> replies[first..][..n] == replies[..used];
      match result {
        case Whole(whole) => return Some(whole), used;
        case Failed => return None, used;
        case Torn =>
          if late { return None, used; }
      }
    }
    return None, used;
  }

  predicate Answered(replies: seq<Option<Message>>) { forall r :: r in replies ==> r.Some? }

  function Values(replies: seq<Option<Message>>): (ms: seq<Message>)
    requires Answered(replies)
    ensures |ms| == |replies|
  {
    seq(|replies|, i requires 0 <= i < |replies| => replies[i].value)
  }

  lemma AnsweredSnoc(replies: seq<Option<Message>>, n: nat)
    requires n < |replies| && Answered(replies[..n]) && replies[n].Some?
    ensures Answered(replies[..n + 1])
    ensures Values(replies[..n + 1]) == Values(replies[..n]) + [replies[n].value]
  {
    assert replies[..n + 1] == replies[..n] + [replies[n]];
  }

  lemma AssemblesSnoc(p: Page, chunks: seq<Message>, mid: Page, m: Message, q: Page)
    requires |p.cells| <= FRAME_CHUNK_SIZE && |mid.cells| <= FRAME_CHUNK_SIZE
    requires Assembles(p, chunks, mid) && AcceptChunk(mid, m) == (q, Accepted)
    ensures Assembles(p, chunks + [m], q)
  {
    assert (chunks + [m])[..|chunks|] == chunks;
  }

  /** Never a torn page: the cells of a returned page are those of contiguous
      chunks sharing one revision and total, and it has its full length. */
  lemma CompletePageIsWhole(offset: u16, seen: seq<Option<Message>>, page: Page)
    requires PassEnds(offset, seen, Whole(page))
    ensures Answered(seen) && AllChunks(Values(seen))
    ensures var chunks := Values(seen);
            && Contiguous(chunks, offset) && page.cells == Concatenation(chunks)
            && |page.cells| == FullLength(page.total, offset)
            && page.total == chunks[|chunks| - 1].total && page.revision == chunks[|chunks| - 1].chunkRevision
  {
    var n := |seen| - 1;
    var init, last := Values(seen[..n]), seen[n].value;
    var mid: Page :| |mid.cells| <= FRAME_CHUNK_SIZE && Assembles(EmptyPage(offset), init, mid)
               && AcceptChunk(mid, last) == (page, Complete);
    assert seen[..n + 1] == seen;
    AnsweredSnoc(seen, n);
    hide Assembles, AcceptChunk, Answered, Values, Contiguous, Concatenation, AllChunks, FullLength;
    AcceptedRun(offset, init, mid);
    CompleteExactly(offset, init, mid, last);
    RunSnoc(init, last, offset);
  }

  /** A pass is torn exactly by a chunk that continues the page where the ones
      before it ended, but is of another revision or total than they are. */
  lemma TornExactly(offset: u16, init: seq<Message>, mid: Page, m: Message)
    requires |mid.cells| <= FRAME_CHUNK_SIZE && Assembles(EmptyPage(offset), init, mid)
    ensures AllChunks(init)
    ensures Ending(mid, Some(m), Torn) <==>
            && m.FrameChunk? && m.len <= FRAME_CHUNK_CELLS && init != []
            && m.start == offset + |Concatenation(init)|
            && exists c :: c in init && (c.total != m.total || c.chunkRevision != m.chunkRevision)
  {
    AcceptedRun(offset, init, mid);
    OneFrame(offset, init, mid);
    hide Assembles, Contiguous, Concatenation;
    if init != [] {
      assert init[|init| - 1] in init;
    }
  }

  lemma AssemblesLast(p: Page, chunks: seq<Message>, q: Page) returns (mid: Page)
    requires |p.cells| <= FRAME_CHUNK_SIZE && Assembles(p, chunks, q) && chunks != []
    ensures |mid.cells| <= FRAME_CHUNK_SIZE && Assembles(p, chunks[..|chunks| - 1], mid)
    ensures AcceptChunk(mid, chunks[|chunks| - 1]) == (q, Accepted)
  {
    hide AcceptChunk;
    var last := chunks[|chunks| - 1];
    mid :| |mid.cells| <= FRAME_CHUNK_SIZE && Assembles(p, chunks[..|chunks| - 1], mid)
      && AcceptChunk(mid, last) == (q, Accepted);
  }

  lemma {:induction false} OneFrame(offset: u16, chunks: seq<Message>, q: Page)
    requires Assembles(EmptyPage(offset), chunks, q)
    ensures AllChunks(chunks)
    ensures forall c :: c in chunks ==> c.total == q.total && c.chunkRevision == q.revision
    decreases |chunks|
  {
    if chunks != [] {
      hide Assembles, AcceptChunk, Contiguous, Concatenation, EmptyPage;
      var init, last := chunks[..|chunks| - 1], chunks[|chunks| - 1];
      var mid := AssemblesLast(EmptyPage(offset), chunks, q);
      OneFrame(offset, init, mid);
      AcceptedStep(mid, last, q);
      AcceptedRun(offset, init, mid);
      assert chunks == init + [last];
    }
  }

  // ---- Reading one frame ----

  /** What the peripheral answers for a request at `start`: up to four cells of
      the page of at most `FRAME_CHUNK_SIZE` cells that begins there. */
  function Served(frame: seq<Rgb8>, revision: Option<u32>, id: u8, start: u16): (m: Message)
    requires |frame| < 0x1_0000
    ensures m.FrameChunk?
  {
    var rest := if start < |frame| then frame[start..] else [];
    var len := Least(4, |rest|, FRAME_CHUNK_SIZE);
    FrameChunk(id, revision, |frame|, start, len,
               seq(4, k requires 0 <= k < 4 => if k < len then rest[k] else Rgb8(0, 0, 0)))
  }

  /** Every request of a pass at `offset` is answered from the same frame. */
  predicate AllServed(frame: seq<Rgb8>, revision: Option<u32>, offset: u16, replies: seq<Option<Message>>)
    requires |frame| < 0x1_0000
  {
    forall i :: 0 <= i < |replies| ==>
      replies[i].Some? && replies[i].value.FrameChunk?
      && replies[i] == Some(Served(frame, revision, replies[i].value.requestId, Min(offset + 4 * i, 65535)))
  }

  /** The cells of the page at `offset`. */
  function PageOf(frame: seq<Rgb8>, offset: u16): seq<Rgb8> {
    if offset >= |frame| then [] else frame[offset..Min(|frame|, offset + FRAME_CHUNK_SIZE)]
  }

  /** After `n` answers, all of which were full and left something to read. */
  lemma {:induction false} ServedSoFar(frame: seq<Rgb8>, revision: Option<u32>, offset: u16,
                                       replies: seq<Option<Message>>, n: nat)
    requires |frame| < 0x1_0000 && AllServed(frame, revision, offset, replies) && n <= |replies|
    requires n > 0 ==> 4 * n < |PageOf(frame, offset)|
    ensures 4 * n <= |PageOf(frame, offset)|
    ensures Passing(offset, replies, n,
                    if n == 0 then EmptyPage(offset)
                    else Page(offset, revision, |frame|, true, PageOf(frame, offset)[..4 * n]))
  {
    hide Served, AcceptChunk, Passing;
    if n == 0 {
      PassStarts(offset, replies);
    } else {
      var before := if n == 1 then EmptyPage(offset)
                    else Page(offset, revision, |frame|, true, PageOf(frame, offset)[..4 * (n - 1)]);
      ServedSoFar(frame, revision, offset, replies, n - 1);
      ServedStep(frame, revision, offset, replies[n - 1].value, n - 1, before);
      PassGoesOn(offset, replies, n - 1, before,
                 Page(offset, revision, |frame|, true, PageOf(frame, offset)[..4 * n]));
    }
  }

  /** A full answer that leaves something to read is accepted. */
  lemma ServedStep(frame: seq<Rgb8>, revision: Option<u32>, offset: u16, m: Message, n: nat, before: Page)
    requires |frame| < 0x1_0000 && 4 * (n + 1) < |PageOf(frame, offset)|
    requires m.FrameChunk? && m == Served(frame, revision, m.requestId, Min(offset + 4 * n, 65535))
    requires before == if n == 0 then EmptyPage(offset)
                       else Page(offset, revision, |frame|, true, PageOf(frame, offset)[..4 * n])
    ensures AcceptChunk(before, m) ==
            (Page(offset, revision, |frame|, true, PageOf(frame, offset)[..4 * (n + 1)]), Accepted)
  {
    var page := PageOf(frame, offset);
    assert m.start == offset + 4 * n && m.len == 4;
    assert page == frame[offset..offset + |page|];
    assert m.cells[..4] == frame[m.start..m.start + 4] == page[4 * n..4 * n + 4];
    assert page[..4 * n] + page[4 * n..4 * n + 4] == page[..4 * (n + 1)];
  }

  /** The page's last chunk is cut where the page ends. */
  predicate ChunksFit(frame: seq<Rgb8>, offset: u16) {
    FRAME_CHUNK_SIZE % 4 == 0 || FRAME_CHUNK_SIZE < 4 || |frame| - offset <= FRAME_CHUNK_SIZE
  }

  function LastAnswer(length: nat): nat { if length == 0 then 0 else (length - 1) / 4 }

  /** How the page's last chunk compares with what the assembly wants. */
  lemma LastLength(frame: seq<Rgb8>, revision: Option<u32>, offset: u16, id: u8, n: nat)
    requires |frame| < 0x1_0000 && n == LastAnswer(|PageOf(frame, offset)|)
    ensures var page := PageOf(frame, offset); var m := Served(frame, revision, id, Min(offset + 4 * n, 65535));
            && 4 * n <= |page| <= 4 * n + 4 && m.total == |frame| && m.chunkRevision == revision
            && m.start == Min(offset + 4 * n, 65535) && m.len <= FRAME_CHUNK_CELLS
            && Least(4, SaturatingSub(|frame|, m.start), FRAME_CHUNK_SIZE - 4 * n) == |page| - 4 * n
            && (m.len == |page| - 4 * n <==> ChunksFit(frame, offset))
            && (ChunksFit(frame, offset) ==>
                 && m.cells[..m.len] == page[4 * n..]
                 && (|page| == FRAME_CHUNK_SIZE || SaturatingAdd16(m.start, m.len) >= |frame|))
  {
    var page, m := PageOf(frame, offset), Served(frame, revision, id, Min(offset + 4 * n, 65535));
    if ChunksFit(frame, offset) && page != [] {
      assert page == frame[offset..offset + |page|];
      assert m.cells[..m.len] == frame[m.start..m.start + m.len];
    }
  }

  lemma LastStep(frame: seq<Rgb8>, revision: Option<u32>, offset: u16, m: Message, before: Page)
    requires |frame| < 0x1_0000
    requires var n := LastAnswer(|PageOf(frame, offset)|);
             && m.FrameChunk? && m == Served(frame, revision, m.requestId, Min(offset + 4 * n, 65535))
             && before == if n == 0 then EmptyPage(offset)
                          else Page(offset, revision, |frame|, true, PageOf(frame, offset)[..4 * n])
    ensures ChunksFit(frame, offset) ==>
      AcceptChunk(before, m) == (Page(offset, revision, |frame|, true, PageOf(frame, offset)), Complete)
    ensures !ChunksFit(frame, offset) ==> AcceptChunk(before, m).1 == Invalid
  {
    hide Served, PageOf, ChunksFit, LastAnswer;
    var page := PageOf(frame, offset);
    var n := LastAnswer(|page|);
    LastLength(frame, revision, offset, m.requestId, n);
    assert page[..4 * n] + page[4 * n..] == page;
    assert |before.cells| == 4 * n;
  }

  /** What a pass over one frame ends in. */
  function FrameAttempt(frame: seq<Rgb8>, revision: Option<u32>, offset: u16): Attempt {
    if |frame| < 0x1_0000 && ChunksFit(frame, offset)
    then Whole(Page(offset, revision, |frame|, true, PageOf(frame, offset))) else Failed
  }

  lemma FramePass(frame: seq<Rgb8>, revision: Option<u32>, offset: u16, replies: seq<Option<Message>>)
    requires |frame| < 0x1_0000 && AllServed(frame, revision, offset, replies) && |replies| >= FRAME_CHUNK_SIZE
    ensures var n := LastAnswer(|PageOf(frame, offset)|);
            n < |replies| && PassEnds(offset, replies[..n + 1], FrameAttempt(frame, revision, offset))
  {
    var page := PageOf(frame, offset);
    var n := LastAnswer(|page|);
    assert n < FRAME_CHUNK_SIZE;
    var before := if n == 0 then EmptyPage(offset) else Page(offset, revision, |frame|, true, page[..4 * n]);
    ServedSoFar(frame, revision, offset, replies, n);
    hide Served, AcceptChunk, ChunksFit, PageOf, Passing;
    LastStep(frame, revision, offset, replies[n].value, before);
    EndsPass(offset, replies, n, before, FrameAttempt(frame, revision, offset));
  }

  lemma {:induction false} AssemblesOnce(p: Page, chunks: seq<Message>, q: Page, r: Page)
    requires |p.cells| <= FRAME_CHUNK_SIZE && Assembles(p, chunks, q) && Assembles(p, chunks, r)
    ensures q == r
    decreases |chunks|
  {
    if chunks != [] {
      var init, last := chunks[..|chunks| - 1], chunks[|chunks| - 1];
      var a: Page :| |a.cells| <= FRAME_CHUNK_SIZE && Assembles(p, init, a) && AcceptChunk(a, last) == (q, Accepted);
      var b: Page :| |b.cells| <= FRAME_CHUNK_SIZE && Assembles(p, init, b) && AcceptChunk(b, last) == (r, Accepted);
      AssemblesOnce(p, init, a, b);
    }
  }

  lemma {:induction false} AssemblesPrefix(p: Page, chunks: seq<Message>, q: Page, n: nat) returns (mid: Page)
    requires |p.cells| <= FRAME_CHUNK_SIZE && Assembles(p, chunks, q) && n < |chunks|
    ensures |mid.cells| <= FRAME_CHUNK_SIZE && Assembles(p, chunks[..n], mid)
    ensures AcceptChunk(mid, chunks[n]).1 == Accepted
    decreases |chunks|
  {
    var init, last := chunks[..|chunks| - 1], chunks[|chunks| - 1];
    var a: Page :| |a.cells| <= FRAME_CHUNK_SIZE && Assembles(p, init, a) && AcceptChunk(a, last) == (q, Accepted);
    if n == |init| {
      mid := a;
    } else {
      mid := AssemblesPrefix(p, init, a, n);
      assert init[..n] == chunks[..n];
    }
  }

  lemma PassWitness(offset: u16, replies: seq<Option<Message>>, n: nat, result: Attempt) returns (mid: Page)
    requires n <= |replies| && PassEnds(offset, replies[..n], result)
    ensures n > 0 && Answered(replies[..n - 1]) && |mid.cells| <= FRAME_CHUNK_SIZE
    ensures Assembles(EmptyPage(offset), Values(replies[..n - 1]), mid) && Ending(mid, replies[n - 1], result)
  {
    hide Assembles, Ending, Values, Answered;
    assert replies[..n][..n - 1] == replies[..n - 1];
    mid :| |mid.cells| <= FRAME_CHUNK_SIZE && Assembles(EmptyPage(offset), Values(replies[..n - 1]), mid)
      && Ending(mid, replies[n - 1], result);
  }

  lemma EndsOneWay(mid: Page, reply: Option<Message>, a: Attempt, b: Attempt)
    requires |mid.cells| <= FRAME_CHUNK_SIZE && Ending(mid, reply, a)
    ensures Ending(mid, reply, b) ==> a == b
    ensures reply.Some? ==> AcceptChunk(mid, reply.value).1 != Accepted
  {
    hide AcceptChunk;
  }

  lemma EarlierValues(replies: seq<Option<Message>>, m: nat, n: nat)
    requires m < n <= |replies| && Answered(replies[..n])
    ensures Answered(replies[..m]) && replies[m].Some?
    ensures Values(replies[..n])[..m] == Values(replies[..m]) && Values(replies[..n])[m] == replies[m].value
  {
    assert replies[..n][m] in replies[..n];
    assert forall r :: r in replies[..m] ==> r in replies[..n];
  }

  /** The reply that ends a pass is not one a longer pass could accept. */
  lemma NoLongerPass(offset: u16, replies: seq<Option<Message>>, m: nat, a: Attempt, n: nat, b: Attempt)
    requires m < n <= |replies| && PassEnds(offset, replies[..m], a)
    ensures !PassEnds(offset, replies[..n], b)
  {
    hide PassEnds, Assembles, Ending, Values, Answered, AcceptChunk;
    if PassEnds(offset, replies[..n], b) {
      var p := PassWitness(offset, replies, m, a);
      var q := PassWitness(offset, replies, n, b);
      EarlierValues(replies, m - 1, n - 1);
      var mid := AssemblesPrefix(EmptyPage(offset), Values(replies[..n - 1]), q, m - 1);
      AssemblesOnce(EmptyPage(offset), Values(replies[..m - 1]), p, mid);
      EndsOneWay(p, replies[m - 1], a, a);
    }
  }

  /** The replies alone decide where a pass ends and how. */
  lemma PassEndsOnce(offset: u16, replies: seq<Option<Message>>, m: nat, a: Attempt, n: nat, b: Attempt)
    requires m <= |replies| && n <= |replies|
    requires PassEnds(offset, replies[..m], a) && PassEnds(offset, replies[..n], b)
    ensures m == n && a == b
  {
    hide PassEnds, Assembles, Ending, Values, Answered, AcceptChunk;
    if m < n { NoLongerPass(offset, replies, m, a, n, b); }
    if n < m { NoLongerPass(offset, replies, n, b, m, a); }
    var p := PassWitness(offset, replies, m, a);
    var q := PassWitness(offset, replies, n, b);
    AssemblesOnce(EmptyPage(offset), Values(replies[..m - 1]), p, q);
    EndsOneWay(p, replies[m - 1], a, b);
  }

  /** Reading a page of one unchanged frame. The read returns exactly the cells
      of the frame there, `FullLength` of them, when the page ends with a chunk:
      its size is a multiple of four, or less than four, or the frame ends
      within it. Otherwise the last answer overshoots the page, and the read
      fails. */
  lemma FrameReads(frame: seq<Rgb8>, revision: Option<u32>, offset: u16, replies: seq<Option<Message>>, used: nat,
                   late: bool, page: Option<Page>)
    requires |frame| < 0x1_0000 && AllServed(frame, revision, offset, replies) && |replies| >= FRAME_CHUNK_SIZE
    requires used <= |replies| && ReadOutcome(offset, replies[..used], late, page)
    ensures page == if ChunksFit(frame, offset)
                    then Some(Page(offset, revision, |frame|, true, PageOf(frame, offset))) else None
    ensures |PageOf(frame, offset)| == FullLength(|frame|, offset)
  {
    hide PassEnds, AllServed, ChunksFit, PageOf;
    FramePass(frame, revision, offset, replies);
    FrameLength(frame, offset);
    var n, result := LastAnswer(|PageOf(frame, offset)|) + 1, FrameAttempt(frame, revision, offset);
    if Decides(offset, replies[..used], page) {
      PassEndsOnce(offset, replies, used, if page.Some? then Whole(page.value) else Failed, n, result);
    } else {
      NotTorn(offset, replies, used, n, result);
      var first :| 0 <= first <= used && SecondPass(offset, replies[..used][..first], replies[..used][first..], page);
      assert replies[..used][..first] == replies[..first];
      NotTorn(offset, replies, first, n, result);
    }
  }

  lemma FrameLength(frame: seq<Rgb8>, offset: u16)
    requires |frame| < 0x1_0000
    ensures |PageOf(frame, offset)| == FullLength(|frame|, offset)
  {
  }

  lemma NotTorn(offset: u16, replies: seq<Option<Message>>, m: nat, n: nat, result: Attempt)
    requires m <= |replies| && n <= |replies| && PassEnds(offset, replies[..n], result) && !result.Torn?
    ensures !PassEnds(offset, replies[..m], Torn)
  {
    hide PassEnds;
    if PassEnds(offset, replies[..m], Torn) { PassEndsOnce(offset, replies, m, Torn, n, result); }
  }
}

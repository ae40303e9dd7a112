/** Writing one keymap layer to a keyboard: only the cells that differ, in
    short pages. */
module PagedWrites {
  import opened Prelude

  datatype Range = Range(start: nat, end: nat)

  function Length(r: Range): int { r.end - r.start }

  // ---- Runs ----

  predicate Covers(ranges: seq<Range>, k: int) { exists r :: r in ranges && r.start <= k < r.end }

  /** Non-empty, in order, inside `n` cells, and never touching: maximal. */
  predicate Separated(runs: seq<Range>, n: nat) {
    && (forall r :: r in runs ==> r.start < r.end <= n)
    && (forall i :: 0 <= i < |runs| - 1 ==> runs[i].end < runs[i + 1].start)
  }

  function TotalLength(ranges: seq<Range>): int {
    if ranges == [] then 0 else TotalLength(ranges[..|ranges| - 1]) + Length(ranges[|ranges| - 1])
  }

  /** In how many places two layers differ. */
  function Distance<T(==)>(a: seq<T>, b: seq<T>): nat
    requires |a| == |b|
  {
    if a == [] then 0
    else Distance(a[..|a| - 1], b[..|b| - 1]) + (if a[|a| - 1] == b[|b| - 1] then 0 else 1)
  }

  lemma SnocCovers(init: seq<Range>, last: Range, k: int)
    ensures Covers(init + [last], k) <==> Covers(init, k) || last.start <= k < last.end
  {
    assert forall r :: r in init + [last] <==> r in init || r == last;
  }

  lemma SnocTotal(init: seq<Range>, last: Range)
    ensures TotalLength(init + [last]) == TotalLength(init) + Length(last)
  {
    assert (init + [last])[..|init|] == init;
  }

  lemma SnocSeparated(init: seq<Range>, last: Range, n: nat)
    requires Separated(init, n) && last.start < last.end <= n
    requires init != [] ==> init[|init| - 1].end < last.start
    ensures Separated(init + [last], n)
  {
  }

  lemma SnocDistance<T>(a: seq<T>, b: seq<T>, i: nat)
    requires |a| == |b| && i < |a|
    ensures Distance(a[..i + 1], b[..i + 1]) == Distance(a[..i], b[..i]) + (if a[i] == b[i] then 0 else 1)
  {
    assert a[..i + 1][..i] == a[..i] && b[..i + 1][..i] == b[..i];
  }

  lemma Widened(runs: seq<Range>, end: nat, n: nat)
    requires runs != [] && Separated(runs, n) && runs[|runs| - 1].end <= end <= n
    ensures var last := runs[|runs| - 1];
            var wide := runs[..|runs| - 1] + [last.(end := end)];
            && Separated(wide, n)
            && TotalLength(wide) == TotalLength(runs) + end - last.end
            && (forall k :: Covers(wide, k) <==> Covers(runs, k) || last.end <= k < end)
  {
    var init, last := runs[..|runs| - 1], runs[|runs| - 1];
    assert runs == init + [last];
    SnocTotal(init, last.(end := end));
    forall k ensures Covers(init + [last.(end := end)], k) <==> Covers(runs, k) || last.end <= k < end {
      SnocCovers(init, last, k);
      SnocCovers(init, last.(end := end), k);
    }
    assert forall r :: r in init ==> r in runs;
    SnocSeparated(init, last.(end := end), n);
  }

  /** Covered exactly where the layers differ, among the first `i` cells. */
  ghost predicate Marks<T>(runs: seq<Range>, wanted: seq<T>, present: seq<T>, i: nat)
    requires i <= |wanted| == |present|
  {
    forall k :: 0 <= k < i ==> (Covers(runs, k) <==> wanted[k] != present[k])
  }

  /** What holds of the runs over the first `i` cells. */
  ghost predicate RunsSoFar<T>(runs: seq<Range>, wanted: seq<T>, present: seq<T>, i: nat)
    requires i <= |wanted| == |present|
  {
    && Separated(runs, i)
    && Marks(runs, wanted, present, i)
    && TotalLength(runs) == Distance(wanted[..i], present[..i])
  }

  lemma LongerSeparated(runs: seq<Range>, i: nat)
    requires Separated(runs, i)
    ensures Separated(runs, i + 1) && !Covers(runs, i)
    ensures runs != [] ==> runs[|runs| - 1].end <= i
  {
  }

  lemma MarksMore<T>(runs: seq<Range>, more: seq<Range>, wanted: seq<T>, present: seq<T>, i: nat)
    requires i < |wanted| == |present| && Marks(runs, wanted, present, i)
    requires forall k :: Covers(more, k) <==> Covers(runs, k) || (k == i && wanted[i] != present[i])
    requires !Covers(runs, i)
    ensures Marks(more, wanted, present, i + 1)
  {
    hide Covers;
  }

  lemma RunsSkip<T>(runs: seq<Range>, wanted: seq<T>, present: seq<T>, i: nat)
    requires i < |wanted| == |present| && RunsSoFar(runs, wanted, present, i) && wanted[i] == present[i]
    ensures RunsSoFar(runs, wanted, present, i + 1)
  {
    hide Separated, Marks, Covers, Distance, TotalLength;
    SnocDistance(wanted, present, i);
    LongerSeparated(runs, i);
    MarksMore(runs, runs, wanted, present, i);
  }

  lemma RunsExtend<T>(runs: seq<Range>, wanted: seq<T>, present: seq<T>, i: nat)
    requires i < |wanted| == |present| && RunsSoFar(runs, wanted, present, i) && wanted[i] != present[i]
    requires runs != [] && runs[|runs| - 1].end == i
    ensures RunsSoFar(runs[..|runs| - 1] + [runs[|runs| - 1].(end := i + 1)], wanted, present, i + 1)
  {
    hide Separated, Marks, Covers, Distance, TotalLength;
    SnocDistance(wanted, present, i);
    LongerSeparated(runs, i);
    Widened(runs, i + 1, i + 1);
    MarksMore(runs, runs[..|runs| - 1] + [runs[|runs| - 1].(end := i + 1)], wanted, present, i);
  }

  lemma RunsOpen<T>(runs: seq<Range>, wanted: seq<T>, present: seq<T>, i: nat)
    requires i < |wanted| == |present| && RunsSoFar(runs, wanted, present, i) && wanted[i] != present[i]
    requires runs == [] || runs[|runs| - 1].end != i
    ensures RunsSoFar(runs + [Range(i, i + 1)], wanted, present, i + 1)
  {
    hide Separated, Marks, Covers, Distance, TotalLength;
    SnocDistance(wanted, present, i);
    LongerSeparated(runs, i);
    SnocTotal(runs, Range(i, i + 1));
    SnocSeparated(runs, Range(i, i + 1), i + 1);
    forall k ensures Covers(runs + [Range(i, i + 1)], k) <==> Covers(runs, k) || k == i {
      SnocCovers(runs, Range(i, i + 1), k);
    }
    MarksMore(runs, runs + [Range(i, i + 1)], wanted, present, i);
  }

  /** The maximal runs of cells that differ; the whole layer when its present
      contents could not be read. */
  method ChangedRuns<T(==)>(wanted: seq<T>, present: seq<T>) returns (runs: seq<Range>)
    ensures Separated(runs, |wanted|)
    ensures wanted == [] ==> runs == []
    ensures wanted != [] && |present| != |wanted| ==> runs == [Range(0, |wanted|)]
    ensures |present| == |wanted| ==>
      && (forall k :: 0 <= k < |wanted| ==> (Covers(runs, k) <==> wanted[k] != present[k]))
      && TotalLength(runs) == Distance(wanted, present)
  {
    runs := [];
    if wanted == [] { return; }
    if |present| != |wanted| {
      runs := [Range(0, |wanted|)];
      return;
    }
    for i := 0 to |wanted|
      invariant RunsSoFar(runs, wanted, present, i)
    {
      hide RunsSoFar;
      if wanted[i] == present[i] {
        RunsSkip(runs, wanted, present, i);
      } else {
        if runs != [] && runs[|runs| - 1].end == i {
          RunsExtend(runs, wanted, present, i);
          runs := runs[..|runs| - 1] + [runs[|runs| - 1].(end := i + 1)];
        } else {
          RunsOpen(runs, wanted, present, i);
          runs := runs + [Range(i, i + 1)];
        }
      }
    }
    assert wanted[..|wanted|] == wanted && present[..|wanted|] == present;
  }

  // ---- Pages ----

  function RunPages(run: Range, batch: nat): (pages: seq<Range>)
    requires batch > 0
    decreases Length(run)
  {
    if run.start >= run.end then []
    else [Range(run.start, Min(run.start + batch, run.end))] + RunPages(Range(run.start + batch, run.end), batch)
  }

  function PagesOf(runs: seq<Range>, batch: nat): seq<Range> {
    if runs == [] then []
    else PagesOf(runs[..|runs| - 1], batch) + RunPages(runs[|runs| - 1], Max(batch, 1))
  }

  /** Short, non-empty, in order and disjoint, between `from` and `to`. */
  predicate Paged(pages: seq<Range>, batch: nat, from: nat, to: nat) {
    && (forall p :: p in pages ==> from <= p.start < p.end <= to && Length(p) <= batch)
    && (forall i :: 0 <= i < |pages| - 1 ==> pages[i].end <= pages[i + 1].start)
  }

  lemma {:induction false} TotalAppend(a: seq<Range>, b: seq<Range>)
    ensures TotalLength(a + b) == TotalLength(a) + TotalLength(b)
  {
    if b == [] {
      assert a + b == a;
    } else {
      assert (a + b)[..|a + b| - 1] == a + b[..|b| - 1];
      TotalAppend(a, b[..|b| - 1]);
    }
  }

  lemma CoversAppend(a: seq<Range>, b: seq<Range>, k: int)
    ensures Covers(a + b, k) <==> Covers(a, k) || Covers(b, k)
  {
    assert forall r :: r in a + b <==> r in a || r in b;
  }

  lemma PagedAppend(a: seq<Range>, b: seq<Range>, batch: nat, from: nat, mid: nat, last: nat, to: nat)
    requires Paged(a, batch, from, mid) && Paged(b, batch, last, to) && from <= mid <= last <= to
    ensures Paged(a + b, batch, from, to)
  {
    assert forall p :: p in a + b ==> p in a || p in b;
    forall i | 0 <= i < |a + b| - 1 ensures (a + b)[i].end <= (a + b)[i + 1].start {
      if i == |a| - 1 { assert a[i] in a && b[0] in b; }
    }
  }

  /** What the pages of one run must be. */
  ghost predicate Cuts(pages: seq<Range>, run: Range, batch: nat) {
    && Paged(pages, batch, run.start, run.end)
    && (forall k :: Covers(pages, k) <==> run.start <= k < run.end)
    && TotalLength(pages) == Length(run)
  }

  lemma OnePage(page: Range, batch: nat)
    requires page.start < page.end && Length(page) <= batch
    ensures Cuts([page], page, batch)
  {
    assert [page][..0] == [];
    forall k ensures Covers([page], k) <==> page.start <= k < page.end {
      SnocCovers([], page, k);
      assert [] + [page] == [page];
    }
  }

  lemma CutsJoin(a: seq<Range>, b: seq<Range>, first: Range, rest: Range, batch: nat)
    requires Cuts(a, first, batch) && Cuts(b, rest, batch) && first.start <= first.end == rest.start <= rest.end
    ensures Cuts(a + b, Range(first.start, rest.end), batch)
  {
    hide Paged, Covers, TotalLength;
    TotalAppend(a, b);
    PagedAppend(a, b, batch, first.start, first.end, rest.start, rest.end);
    forall k ensures Covers(a + b, k) <==> first.start <= k < rest.end {
      CoversAppend(a, b, k);
    }
  }

  /** The pages of one run cut it up exactly. */
  lemma {:induction false} RunPagesExact(run: Range, batch: nat)
    requires batch > 0 && run.start < run.end
    ensures Cuts(RunPages(run, batch), run, batch)
    decreases Length(run)
  {
    var first := Range(run.start, Min(run.start + batch, run.end));
    var rest := Range(run.start + batch, run.end);
    RunPagesStep(run, batch);
    hide RunPages, Cuts;
    OnePage(first, batch);
    if rest.start < rest.end {
      RunPagesExact(rest, batch);
      CutsJoin([first], RunPages(rest, batch), first, rest, batch);
    }
  }

  lemma RunPagesStep(run: Range, batch: nat)
    requires batch > 0 && run.start < run.end
    ensures var rest := Range(run.start + batch, run.end);
            RunPages(run, batch) == if rest.start < rest.end then [Range(run.start, rest.start)] + RunPages(rest,
              batch) else [run]
  {
  }

  /** No page crosses from one run into another. */
  predicate Within(pages: seq<Range>, runs: seq<Range>) {
    forall p: Range :: p in pages ==> exists r: Range :: r in runs && r.start <= p.start && p.end <= r.end
  }

  lemma WithinAppend(a: seq<Range>, b: seq<Range>, runs: seq<Range>, last: Range)
    requires Within(a, runs) && forall p :: p in b ==> last.start <= p.start && p.end <= last.end
    ensures Within(a + b, runs + [last])
  {
    assert forall r :: r in runs ==> r in runs + [last];
    assert last in runs + [last];
    assert forall p :: p in a + b ==> p in a || p in b;
  }

  lemma CoversBoth(a: seq<Range>, b: seq<Range>, runs: seq<Range>, last: Range)
    requires forall k :: Covers(a, k) <==> Covers(runs, k)
    requires forall k :: Covers(b, k) <==> last.start <= k < last.end
    ensures forall k :: Covers(a + b, k) <==> Covers(runs + [last], k)
  {
    forall k ensures Covers(a + b, k) <==> Covers(runs + [last], k) {
      CoversAppend(a, b, k);
      SnocCovers(runs, last, k);
    }
  }

  function EndOf(runs: seq<Range>): nat { if runs == [] then 0 else runs[|runs| - 1].end }

  /** The pages of maximal runs: non-empty, increasing, disjoint, never longer
      than the batch, never across two runs, and covering exactly what the runs
      cover. */
  ghost predicate PagesFor(pages: seq<Range>, runs: seq<Range>, batch: nat) {
    && Paged(pages, batch, 0, EndOf(runs))
    && (forall k :: Covers(pages, k) <==> Covers(runs, k))
    && TotalLength(pages) == TotalLength(runs)
    && Within(pages, runs)
  }

  lemma PagesJoin(init: seq<Range>, last: Range, a: seq<Range>, b: seq<Range>, batch: nat)
    requires PagesFor(a, init, batch) && Cuts(b, last, batch) && EndOf(init) <= last.start <= last.end
    ensures PagesFor(a + b, init + [last], batch)
  {
    assert forall p :: p in b ==> last.start <= p.start && p.end <= last.end;
    hide Paged, Covers, TotalLength, Within;
    TotalAppend(a, b);
    SnocTotal(init, last);
    PagedAppend(a, b, batch, 0, EndOf(init), last.start, last.end);
    CoversBoth(a, b, init, last);
    WithinAppend(a, b, init, last);
  }

  lemma SeparatedInit(init: seq<Range>, last: Range, n: nat)
    requires Separated(init + [last], n)
    ensures Separated(init, n) && last.start < last.end
    ensures EndOf(init) <= last.start
  {
    var runs := init + [last];
    assert last in runs && forall r :: r in init ==> r in runs;
    assert init != [] ==> runs[|init| - 1].end < runs[|init|].start;
    forall i | 0 <= i < |init| - 1 ensures init[i].end < init[i + 1].start {
      assert runs[i] == init[i] && runs[i + 1] == init[i + 1];
    }
  }

  lemma NoPages(batch: nat)
    ensures PagesFor([], [], batch)
  {
  }

  /** Splitting maximal runs into pages loses and adds nothing. */
  lemma {:induction false} PagesExact(runs: seq<Range>, batch: nat, n: nat)
    requires Separated(runs, n)
    ensures PagesFor(PagesOf(runs, batch), runs, Max(batch, 1))
  {
    hide Separated, PagesFor, RunPages, Cuts, EndOf;
    if runs == [] {
      NoPages(Max(batch, 1));
    } else {
      var init, last := runs[..|runs| - 1], runs[|runs| - 1];
      assert runs == init + [last];
      SeparatedInit(init, last, n);
      PagesExact(init, batch, n);
      RunPagesExact(last, Max(batch, 1));
      PagesJoin(init, last, PagesOf(init, batch), RunPages(last, Max(batch, 1)), Max(batch, 1));
    }
  }

  // ---- The keyboard ----

  /** `wanted` wherever some page covers, `held` elsewhere. */
  function Written<T>(held: seq<T>, wanted: seq<T>, pages: seq<Range>): (r: seq<T>)
    requires |held| == |wanted|
    ensures |r| == |held|
  {
    seq(|held|, k requires 0 <= k < |held| => if Covers(pages, k) then wanted[k] else held[k])
  }

  /** The flat index of a row and column. */
  function FlatAt(row: nat, col: nat, cols: nat): nat { row * cols + col }

  /** One layer of a keyboard, addressed by row and column, whose link fails for
      good once `patience` requests have been served. */
  class Keyboard<T> {
    const cols: nat
    var cells: seq<T>
    var patience: nat

    constructor (cols: nat, cells: seq<T>, patience: nat)
      ensures this.cols == cols && this.cells == cells && this.patience == patience
    {
      this.cols, this.cells, this.patience := cols, cells, patience;
    }

    /** Cells from a row and column on, in one request. */
    method SetBulk(row: nat, col: nat, actions: seq<T>) returns (ok: bool)
      requires FlatAt(row, col, cols) + |actions| <= |cells|
      modifies this
      ensures |cells| == old(|cells|) && patience <= old(patience)
      ensures var at := FlatAt(row, col, cols);
              ok ==> cells == old(cells[..at]) + actions + old(cells[at + |actions|..])
      ensures !ok ==> cells == old(cells)
    {
      ok := patience > 0;
      if ok {
        var at := FlatAt(row, col, cols);
        cells := cells[..at] + actions + cells[at + |actions|..];
        patience := patience - 1;
      }
    }
  }

  /** Progress of a write: what `PersistStats` counts of it. */
  datatype Stats = Stats(layers: int, pages: int, cells: int)

  /** The row and column of a flat index. */
  function Address(offset: nat, cols: nat): (r: (nat, nat))
    requires cols > 0
    ensures FlatAt(r.0, r.1, cols) == offset
  {
    (offset / cols, offset % cols)
  }

  /** After a page, or the part of it that got through. */
  ghost predicate Partly<T>(now: seq<T>, before: seq<T>, wanted: seq<T>, page: Range) {
    && |now| == |before| == |wanted|
    && forall k :: 0 <= k < |now| ==> now[k] == before[k] || (page.start <= k < page.end && now[k] == wanted[k])
  }

  /** One page from flat index `page.start`: in one request where the firmware
      takes bulk transfers, cell by cell where it does not. */
  method WritePage<T>(keyboard: Keyboard<T>, bulk: bool, wanted: seq<T>, page: Range) returns (ok: bool)
    requires keyboard.cols > 0 && page.start < page.end <= |wanted| == |keyboard.cells|
    modifies keyboard
    ensures |keyboard.cells| == |wanted|
    ensures ok ==> keyboard.cells == Written(old(keyboard.cells), wanted, [page])
    ensures !ok ==> Partly(keyboard.cells, old(keyboard.cells), wanted, page)
  {
    hide Written, Partly, FlatAt, Address, Covers;
    var cols := keyboard.cols;
    var cells := wanted[page.start..page.end];
    ghost var held := keyboard.cells;
    if bulk {
      var (row, col) := Address(page.start, cols);
      ok := keyboard.SetBulk(row, col, cells);
      if ok { PageIsWritten(keyboard.cells, held, wanted, page); } else { NothingIsPartly(held, wanted, page); }
      return;
    }
    for i := 0 to |cells|
      invariant keyboard.cells == held[..page.start] + cells[..i] + held[page.start + i..]
    {
      var flat := page.start + i;
      var (row, col) := Address(flat, cols);
      ghost var before := keyboard.cells;
      ok := keyboard.SetBulk(row, col, [cells[i]]);
      if !ok {
        PartIsPartly(held, wanted, page, i);
        return;
      }
      NextCell(before, held, cells, page.start, i);
    }
    assert cells[..|cells|] == cells;
    PageIsWritten(keyboard.cells, held, wanted, page);
    ok := true;
  }

  lemma NextCell<T>(now: seq<T>, held: seq<T>, cells: seq<T>, at: nat, i: nat)
    requires i < |cells| && at + |cells| <= |held| && now == held[..at] + cells[..i] + held[at + i..]
    ensures now[..at + i] + [cells[i]] + now[at + i + 1..] == held[..at] + cells[..i + 1] + held[at + (i + 1)..]
  {
  }

  lemma PageIsWritten<T>(now: seq<T>, held: seq<T>, wanted: seq<T>, page: Range)
    requires page.start < page.end <= |wanted| == |held|
    requires now == held[..page.start] + wanted[page.start..page.end] + held[page.end..]
    ensures now == Written(held, wanted, [page])
  {
    forall k ensures Covers([page], k) <==> page.start <= k < page.end {
      SnocCovers([], page, k);
      assert [] + [page] == [page];
    }
    hide Covers;
  }

  lemma PartIsPartly<T>(held: seq<T>, wanted: seq<T>, page: Range, i: nat)
    requires page.start + i <= page.end <= |wanted| == |held|
    ensures Partly(held[..page.start] + wanted[page.start..page.end][..i] + held[page.start + i..], held, wanted, page)
  {
  }

  lemma NothingIsPartly<T>(held: seq<T>, wanted: seq<T>, page: Range)
    requires |held| == |wanted|
    ensures Partly(held, held, wanted, page)
  {
  }

  /** Every cell is what it was or what was wanted. */
  ghost predicate Mixed<T>(now: seq<T>, before: seq<T>, wanted: seq<T>) {
    |now| == |before| == |wanted| && forall k :: 0 <= k < |now| ==> now[k] == before[k] || now[k] == wanted[k]
  }

  lemma WrittenSnoc<T>(held: seq<T>, wanted: seq<T>, init: seq<Range>, last: Range)
    requires |held| == |wanted|
    ensures Written(Written(held, wanted, init), wanted, [last]) == Written(held, wanted, init + [last])
  {
    forall k ensures Covers([last], k) <==> last.start <= k < last.end {
      SnocCovers([], last, k);
      assert [] + [last] == [last];
    }
    forall k ensures Covers(init + [last], k) <==> Covers(init, k) || last.start <= k < last.end {
      SnocCovers(init, last, k);
    }
    hide Covers;
  }

  lemma WrittenMixed<T>(now: seq<T>, held: seq<T>, wanted: seq<T>, done: seq<Range>, page: Range)
    requires |held| == |wanted| && Partly(now, Written(held, wanted, done), wanted, page)
    ensures Mixed(now, held, wanted)
  {
    hide Covers;
  }

  /** The write loop of one layer. Whatever the keyboard really holds, success
      leaves `wanted` in every covered cell and the rest alone; a failed link
      leaves each cell old or wanted. */
  method WritePages<T>(keyboard: Keyboard<T>, bulk: bool, wanted: seq<T>, pages: seq<Range>, stats: Stats)
    returns (ok: bool, now: Stats)
    requires keyboard.cols > 0 && |wanted| == |keyboard.cells|
    requires forall p :: p in pages ==> p.start < p.end <= |wanted|
    modifies keyboard
    ensures ok ==> keyboard.cells == Written(old(keyboard.cells), wanted, pages)
    ensures ok ==> now == Stats(stats.layers + (if pages == [] then 0 else 1), stats.pages + |pages|,
                                stats.cells + TotalLength(pages))
    ensures !ok ==> Mixed(keyboard.cells, old(keyboard.cells), wanted)
  {
    assert TotalLength([]) == 0;
    hide Written, TotalLength, Partly, Mixed, Covers;
    now := stats;
    assert Written(keyboard.cells, wanted, []) == keyboard.cells by { WrittenNothing(keyboard.cells, wanted); }
    if pages == [] { return true, now; }
    now := now.(layers := now.layers + 1);
    ghost var held := keyboard.cells;
    for i := 0 to |pages|
      invariant keyboard.cells == Written(held, wanted, pages[..i]) && |keyboard.cells| == |wanted|
      invariant now == Stats(stats.layers + 1, stats.pages + i, stats.cells + TotalLength(pages[..i]))
    {
      assert pages[..i + 1] == pages[..i] + [pages[i]] && pages[i] in pages;
      ok := WritePage(keyboard, bulk, wanted, pages[i]);
      if !ok {
        WrittenMixed(keyboard.cells, held, wanted, pages[..i], pages[i]);
        return;
      }
      WrittenSnoc(held, wanted, pages[..i], pages[i]);
      SnocTotal(pages[..i], pages[i]);
      now := Stats(now.layers, now.pages + 1, now.cells + (pages[i].end - pages[i].start));
    }
    assert pages[..|pages|] == pages;
    ok := true;
  }

  lemma WrittenNothing<T>(held: seq<T>, wanted: seq<T>)
    requires |held| == |wanted|
    ensures Written(held, wanted, []) == held
  {
  }

  lemma WrittenEverything<T>(held: seq<T>, wanted: seq<T>, pages: seq<Range>)
    requires |held| == |wanted| && forall k :: 0 <= k < |wanted| ==> Covers(pages, k)
    ensures Written(held, wanted, pages) == wanted
  {
    hide Covers;
  }

  /** Where the pages cover the differences and the keyboard held `present`,
      the result is `wanted`. */
  lemma WrittenDifferences<T>(held: seq<T>, wanted: seq<T>, present: seq<T>, pages: seq<Range>)
    requires |held| == |wanted| == |present|
    requires forall k :: 0 <= k < |wanted| ==> (Covers(pages, k) <==> wanted[k] != present[k])
    ensures forall k :: 0 <= k < |wanted| ==>
      Written(held, wanted, pages)[k] == if wanted[k] != present[k] then wanted[k] else held[k]
    ensures held == present ==> Written(held, wanted, pages) == wanted
  {
    hide Covers;
  }

  lemma WholeRun(n: nat, batch: nat)
    ensures n > 0 ==> Separated([Range(0, n)], n) && TotalLength([Range(0, n)]) == n
    ensures n == 0 ==> PagesOf([Range(0, n)], batch) == []
    ensures forall k :: 0 <= k < n ==> Covers([Range(0, n)], k)
    ensures PagesOf([], batch) == [] && TotalLength([]) == 0
  {
    assert [Range(0, n)][..0] == [];
    assert Range(0, n) in [Range(0, n)];
  }

  /** What a successful write of a layer must have done. */
  ghost predicate LayerWritten<T>(now: seq<T>, before: seq<T>, wanted: seq<T>, present: seq<T>, wholeLayers: bool) {
    && |now| == |before| == |wanted|
    && (wholeLayers || |present| != |wanted| ==> now == wanted)
    && (!wholeLayers && |present| == |wanted| ==>
         && (forall k :: 0 <= k < |wanted| ==> now[k] == if wanted[k] != present[k] then wanted[k] else before[k])
         && (before == present ==> now == wanted))
  }

  /** The pages of a layer and what they amount to. */
  method LayerPages<T(==)>(ghost held: seq<T>, wanted: seq<T>, present: seq<T>, wholeLayers: bool, batch: nat)
    returns (pages: seq<Range>)
    requires |held| == |wanted|
    ensures forall p :: p in pages ==> p.start < p.end <= |wanted| && p.end - p.start <= Max(batch, 1)
    ensures forall i :: 0 <= i < |pages| - 1 ==> pages[i].end <= pages[i + 1].start
    ensures forall k :: 0 <= k < |wanted| ==>
      (Covers(pages, k) <==> wholeLayers || |present| != |wanted| || wanted[k] != present[k])
    ensures LayerWritten(Written(held, wanted, pages), held, wanted, present, wholeLayers)
    ensures TotalLength(pages) == if wholeLayers || |present| != |wanted| then |wanted| else Distance(wanted, present)
  {
    var runs: seq<Range>;
    if wholeLayers {
      runs := [Range(0, |wanted|)];
    } else {
      runs := ChangedRuns(wanted, present);
    }
    WholeRun(|wanted|, batch);
    assert wanted == [] ==> Written(held, wanted, []) == wanted;
    hide Distance, TotalLength, Covers, PagesOf, Written, Separated;
    pages := PagesOf(runs, batch);
    if wanted != [] {
      PagesExact(runs, batch, |wanted|);
      if wholeLayers || |present| != |wanted| {
        WrittenEverything(held, wanted, pages);
      } else {
        WrittenDifferences(held, wanted, present, pages);
      }
    }
  }

  /** One layer: exactly the cells that differ when the present layer is known,
      all of them when it is not or when asked to. A keyboard that held
      `present` ends up holding `wanted`, and the cells counted are those that
      differed; nothing is counted, and no page sent, when none did. `pages` are
      the pages it sends: in order, disjoint, none longer than the batch. */
  method WriteLayer<T(==)>(keyboard: Keyboard<T>, bulk: bool, wanted: seq<T>, present: seq<T>,
                           wholeLayers: bool, batch: nat, stats: Stats)
    returns (ok: bool, now: Stats, ghost pages: seq<Range>)
    requires keyboard.cols > 0 && |wanted| == |keyboard.cells|
    modifies keyboard
    ensures !ok ==> Mixed(keyboard.cells, old(keyboard.cells), wanted)
    ensures forall p :: p in pages ==> p.start < p.end <= |wanted| && p.end - p.start <= Max(batch, 1)
    ensures forall i :: 0 <= i < |pages| - 1 ==> pages[i].end <= pages[i + 1].start
    ensures forall k :: 0 <= k < |wanted| ==>
      (Covers(pages, k) <==> wholeLayers || |present| != |wanted| || wanted[k] != present[k])
    ensures ok ==>
      && now.pages - stats.pages == |pages| && now.layers - stats.layers == (if pages == [] then 0 else 1)
      && LayerWritten(keyboard.cells, old(keyboard.cells), wanted, present, wholeLayers)
      && now.cells - stats.cells == (if wholeLayers || |present| != |wanted| then |wanted| else Distance(wanted,
        present))
  {
    hide Distance, TotalLength, Written, Mixed, LayerWritten, Covers;
    var cut := LayerPages(keyboard.cells, wanted, present, wholeLayers, batch);
    pages := cut;
    ok, now := WritePages(keyboard, bulk, wanted, cut, stats);
  }
}

/** Rewriting the macro slots of a keyboard without ever overflowing the space
    they share. */
module Macros {
  import opened Prelude

  /** A macro as the bytes it is encoded to; equal operations have equal bytes. */
  type Macro = seq<u8>

  /** The longest macro the protocol can carry, whatever it is. */
  const MACRO_CAPACITY: nat

  datatype WriteError = ReadOnly | TooManySlots | TooLong | TooMuchStorage | Rejected

  /** Bytes occupied by one macro, framing included; one for an unused slot. */
  function Size(m: Macro): nat { |m| + (if |m| < 0x80 then 1 else 2) }

  /** Framing takes a byte up to 127 bytes and two from 128, so that a longer
      macro always occupies more. */
  lemma SizeExactly(m: Macro, n: Macro)
    ensures (Size(m) == |m| + 1 <==> |m| <= 127) && (Size(m) == |m| + 2 <==> |m| >= 128) && Size([]) == 1
    ensures |m| < |n| <==> Size(m) < Size(n)
  {
  }

  predicate Encodable(m: Macro) { |m| <= MACRO_CAPACITY }

  function Total(slots: seq<Macro>): nat {
    if slots == [] then 0 else Total(slots[..|slots| - 1]) + Size(slots[|slots| - 1])
  }

  function SlotOr(slots: seq<Macro>, index: nat): Macro { if index < |slots| then slots[index] else [] }

  function Unused(n: nat): (r: seq<Macro>)
    ensures |r| == n && forall i :: 0 <= i < n ==> r[i] == []
  {
    seq(n, _ => [])
  }

  /** Some macros in the first slots of a store, the other slots unused. */
  function Padded(macros: seq<Macro>, capacity: nat): (r: seq<Macro>)
    requires |macros| <= capacity
    ensures |r| == capacity
  {
    macros + Unused(capacity - |macros|)
  }

  lemma {:induction false} TotalAppend(a: seq<Macro>, b: seq<Macro>)
    ensures Total(a + b) == Total(a) + Total(b)
  {
    if b == [] {
      assert a + b == a;
    } else {
      assert (a + b)[..|a + b| - 1] == a + b[..|b| - 1];
      TotalAppend(a, b[..|b| - 1]);
    }
  }

  lemma {:induction false} TotalUnused(n: nat)
    ensures Total(Unused(n)) == n
  {
    if n > 0 {
      TotalUnused(n - 1);
      assert Unused(n)[..n - 1] == Unused(n - 1);
    }
  }

  lemma PaddedTotal(macros: seq<Macro>, capacity: nat)
    requires |macros| <= capacity
    ensures Total(Padded(macros, capacity)) == Total(macros) + capacity - |macros|
  {
    TotalAppend(macros, Unused(capacity - |macros|));
    TotalUnused(capacity - |macros|);
  }

  lemma TotalUpdate(slots: seq<Macro>, i: nat, m: Macro)
    requires i < |slots|
    ensures Total(slots[i := m]) == Total(slots) - Size(slots[i]) + Size(m)
  {
    var a, b := slots[..i], slots[i + 1..];
    assert slots == a + [slots[i]] + b && slots[i := m] == a + [m] + b;
    TotalAppend(a + [slots[i]], b);
    TotalAppend(a, [slots[i]]);
    TotalAppend(a + [m], b);
    TotalAppend(a, [m]);
    TotalOne(m);
    TotalOne(slots[i]);
  }

  lemma TotalOne(m: Macro)
    ensures Total([m]) == Size(m)
  {
    assert [m][..0] == [];
  }

  // ---- Ascending growth ----

  function Sum(g: seq<int>): int { if g == [] then 0 else Sum(g[..|g| - 1]) + g[|g| - 1] }

  predicate Ascending(g: seq<int>) { forall i, j :: 0 <= i <= j < |g| ==> g[i] <= g[j] }

  lemma {:induction false} SumNotPositive(g: seq<int>)
    requires forall k :: 0 <= k < |g| ==> g[k] <= 0
    ensures Sum(g) <= 0
  {
    if g != [] {
      SumNotPositive(g[..|g| - 1]);
    }
  }

  lemma {:induction false} SumGrows(g: seq<int>, i: nat)
    requires i <= |g| && forall k :: i <= k < |g| ==> g[k] >= 0
    ensures Sum(g[..i]) <= Sum(g)
    decreases |g|
  {
    if i == |g| {
      assert g[..i] == g;
    } else {
      SumGrows(g[..|g| - 1], i);
      assert g[..|g| - 1][..i] == g[..i];
    }
  }

  /** Prefix sums of an ascending sequence never exceed zero or the total. */
  lemma PrefixBound(g: seq<int>, i: nat)
    requires Ascending(g) && i <= |g|
    ensures Sum(g[..i]) <= Max(0, Sum(g))
  {
    if i > 0 && g[i - 1] <= 0 {
      assert forall k :: 0 <= k < i ==> g[k] <= g[i - 1];
      SumNotPositive(g[..i]);
    } else {
      forall k | i <= k < |g| ensures i > 0 ==> g[k] >= 0 {
        assert i > 0 ==> g[i - 1] <= g[k];
      }
      if i > 0 {
        SumGrows(g, i);
      } else {
        assert g[..0] == [];
      }
    }
  }

  // ---- The order of writing ----

  datatype Step = Step(index: nat, growth: int)

  predicate Distinct(order: seq<Step>) { forall i, j :: 0 <= i < j < |order| ==> order[i].index != order[j].index }

  predicate InOrder(order: seq<Step>) { forall i, j :: 0 <= i <= j < |order| ==> order[i].growth <= order[j].growth }

  ghost predicate SameSteps(a: seq<Step>, b: seq<Step>) { |a| == |b| && forall s :: s in a <==> s in b }

  lemma InsertDistinct(order: seq<Step>, step: Step, at: nat)
    requires Distinct(order) && at <= |order| && forall k :: 0 <= k < |order| ==> order[k].index != step.index
    ensures Distinct(Inserted(order, step, at))
  {
    hide Inserted;
  }

  lemma InsertInOrder(order: seq<Step>, step: Step, at: nat)
    requires InOrder(order) && at <= |order|
    requires at > 0 ==> order[at - 1].growth <= step.growth
    requires forall k :: at <= k < |order| ==> order[k].growth > step.growth
    ensures InOrder(Inserted(order, step, at))
  {
    hide Inserted;
  }

  lemma InsertSame(order: seq<Step>, step: Step, at: nat)
    requires at <= |order|
    ensures SameSteps(Inserted(order, step, at), order + [step])
  {
    InsertedMembers(order, step, at);
    hide Inserted;
  }

  method Insert(order: seq<Step>, step: Step) returns (r: seq<Step>)
    requires InOrder(order) && Distinct(order) && forall s :: s in order ==> s.index != step.index
    ensures InOrder(r) && Distinct(r) && SameSteps(r, order + [step])
  {
    var at := |order|;
    while at > 0 && order[at - 1].growth > step.growth
      invariant 0 <= at <= |order|
      invariant forall k :: at <= k < |order| ==> order[k].growth > step.growth
    {
      at := at - 1;
    }
    assert forall k :: 0 <= k < |order| ==> order[k] in order;
    InsertDistinct(order, step, at);
    InsertInOrder(order, step, at);
    InsertSame(order, step, at);
    hide Inserted;
    r := Inserted(order, step, at);
  }

  /** Ascending by growth. */
  method SortByGrowth(order: seq<Step>) returns (r: seq<Step>)
    requires Distinct(order)
    ensures InOrder(r) && Distinct(r) && SameSteps(r, order)
  {
    r := [];
    for i := 0 to |order|
      invariant InOrder(r) && Distinct(r) && SameSteps(r, order[..i])
    {
      assert order[..i + 1] == order[..i] + [order[i]];
      forall s | s in r ensures s.index != order[i].index {
        var k :| 0 <= k < i && order[k] == s;
      }
      r := Insert(r, order[i]);
    }
    assert order[..|order|] == order;
  }

  function Growths(order: seq<Step>): (g: seq<int>)
    ensures |g| == |order|
  {
    seq(|order|, i requires 0 <= i < |order| => order[i].growth)
  }

  // ---- The keyboard ----

  /** A store refuses any write that would take it past its space. */
  class MacroStore {
    const space: nat
    const writable: bool
    var slots: seq<Macro>

    constructor (space: nat, writable: bool, slots: seq<Macro>)
      ensures this.space == space && this.writable == writable && this.slots == slots
    {
      this.space, this.writable, this.slots := space, writable, slots;
    }

    ghost predicate Valid()
      reads this
    {
      Total(slots) <= space
    }

    method Write(index: nat, m: Macro) returns (ok: bool)
      requires Valid()
      modifies this
      ensures Valid()
      ensures ok <==> index < |old(slots)| && Total(old(slots)[index := m]) <= space
      ensures slots == if ok then old(slots)[index := m] else old(slots)
    {
      ok := index < |slots| && Total(slots[index := m]) <= space;
      if ok { slots := slots[index := m]; }
    }
  }

  predicate AllEncodable(macros: seq<Macro>) { forall m :: m in macros ==> Encodable(m) }

  method CheckEncodable(macros: seq<Macro>) returns (ok: bool)
    ensures ok <==> AllEncodable(macros)
  {
    for i := 0 to |macros|
      invariant forall k :: 0 <= k < i ==> Encodable(macros[k])
    {
      if !Encodable(macros[i]) {
        assert macros[i] in macros;
        return false;
      }
    }
    return true;
  }

  /** How much writing slot `i` adds. */
  function Growth(macros: seq<Macro>, before: seq<Macro>, i: nat): int {
    Size(SlotOr(macros, i)) - Size(SlotOr(before, i))
  }

  ghost predicate Plans(order: seq<Step>, macros: seq<Macro>, before: seq<Macro>) {
    && Distinct(order)
    && (forall s :: s in order ==> s.index < Max(|macros|, |before|) && s.growth == Growth(macros, before, s.index))
    && (forall i :: 0 <= i < Max(|macros|, |before|) ==> Step(i, Growth(macros, before, i)) in order)
  }

  method Plan(macros: seq<Macro>, before: seq<Macro>) returns (order: seq<Step>)
    ensures Plans(order, macros, before) && InOrder(order)
  {
    var steps := [];
    for i := 0 to Max(|macros|, |before|)
      invariant |steps| == i && forall k :: 0 <= k < i ==> steps[k] == Step(k, Growth(macros, before, k))
    {
      steps := steps + [Step(i, Growth(macros, before, i))];
    }
    forall i | 0 <= i < Max(|macros|, |before|) ensures Step(i, Growth(macros, before, i)) in steps {
      assert steps[i] in steps;
    }
    order := SortByGrowth(steps);
  }

  /** The slots after the first `n` steps of the plan. */
  ghost predicate Rewritten(slots: seq<Macro>, held: seq<Macro>, macros: seq<Macro>, order: seq<Step>, n: nat)
    requires n <= |order|
  {
    && |slots| == |held|
    && (forall i :: 0 <= i < |held| && (forall k :: 0 <= k < n ==> order[k].index != i) ==> slots[i] == held[i])
    && (forall k :: 0 <= k < n && order[k].index < |slots| ==> slots[order[k].index] == SlotOr(macros, order[k].index))
  }

  lemma RewrittenStep(slots: seq<Macro>, held: seq<Macro>, macros: seq<Macro>, order: seq<Step>, n: nat)
    requires n < |order| && Distinct(order) && order[n].index < |slots|
    requires Rewritten(slots, held, macros, order, n)
    ensures slots[order[n].index] == held[order[n].index]
    ensures Rewritten(slots[order[n].index := SlotOr(macros, order[n].index)], held, macros, order, n + 1)
  {
  }

  lemma SumSnoc(g: seq<int>, n: nat)
    requires n < |g|
    ensures Sum(g[..n + 1]) == Sum(g[..n]) + g[n]
  {
    assert g[..n + 1][..n] == g[..n];
  }

  /** All steps done, every slot holds what was wanted. */
  lemma RewrittenAll(slots: seq<Macro>, macros: seq<Macro>, before: seq<Macro>, order: seq<Step>, capacity: nat)
    requires |macros| <= capacity && |before| <= capacity && Plans(order, macros, before)
    requires Rewritten(slots, Padded(before, capacity), macros, order, |order|)
    ensures slots == Padded(macros, capacity)
  {
    var held := Padded(before, capacity);
    forall i | 0 <= i < capacity ensures slots[i] == Padded(macros, capacity)[i] {
      if i < Max(|macros|, |before|) {
        var k :| 0 <= k < |order| && order[k] == Step(i, Growth(macros, before, i));
        assert slots[order[k].index] == SlotOr(macros, i);
      } else {
        assert held[i] == [];
        assert forall k :: 0 <= k < |order| ==> order[k] in order;
      }
    }
  }

  /** What writing the rest of the plan adds up to. */
  lemma {:induction false} PlanAddsUp(held: seq<Macro>, macros: seq<Macro>, order: seq<Step>,
                                      n: nat) returns (slots: seq<Macro>)
    requires n <= |order| && Distinct(order)
    requires forall s :: s in order ==>
      s.index < |held| && s.growth == Size(SlotOr(macros, s.index)) - Size(held[s.index])
    ensures Rewritten(slots, held, macros, order, n)
    ensures Total(slots) == Total(held) + Sum(Growths(order)[..n])
    decreases n
  {
    if n == 0 {
      slots := held;
    } else {
      var rest := PlanAddsUp(held, macros, order, n - 1);
      var step := order[n - 1];
      assert step in order;
      RewrittenStep(rest, held, macros, order, n - 1);
      slots := rest[step.index := SlotOr(macros, step.index)];
      TotalUpdate(rest, step.index, SlotOr(macros, step.index));
      SumSnoc(Growths(order), n - 1);
    }
  }

  lemma RewrittenUnique(a: seq<Macro>, b: seq<Macro>, held: seq<Macro>, macros: seq<Macro>, order: seq<Step>, n: nat)
    requires n <= |order| && Rewritten(a, held, macros, order, n) && Rewritten(b, held, macros, order, n)
    ensures a == b
  {
    forall i | 0 <= i < |held| ensures a[i] == b[i] {
      if k :| 0 <= k < n && order[k].index == i {
        assert a[order[k].index] == b[order[k].index];
      }
    }
  }

  lemma PlanFits(macros: seq<Macro>, before: seq<Macro>, order: seq<Step>, capacity: nat)
    requires |macros| <= capacity && |before| <= capacity && Plans(order, macros, before) && InOrder(order)
    ensures Distinct(order) && Ascending(Growths(order))
    ensures forall s :: s in order ==>
      s.index < capacity && s.growth == Size(SlotOr(macros, s.index)) - Size(Padded(before, capacity)[s.index])
  {
    hide Size;
    var held := Padded(before, capacity);
    assert forall i :: 0 <= i < capacity ==> held[i] == SlotOr(before, i);
  }

  /** Along the plan no total exceeds both the old and the new one. */
  lemma NeverAboveBoth(slots: seq<Macro>, macros: seq<Macro>, before: seq<Macro>, order: seq<Step>, n: nat,
                       capacity: nat)
    requires |macros| <= capacity && |before| <= capacity && Plans(order, macros, before) && InOrder(order)
      && n <= |order|
    requires Rewritten(slots, Padded(before, capacity), macros, order, n)
    ensures Total(slots) <= Max(Total(Padded(before, capacity)), Total(Padded(macros, capacity)))
  {
    hide Plans, InOrder, Distinct, Padded, Rewritten, Total, Size, SlotOr, Sum, Growths, Ascending;
    var held := Padded(before, capacity);
    PlanFits(macros, before, order, capacity);
    var now := PlanAddsUp(held, macros, order, n);
    var end := PlanAddsUp(held, macros, order, |order|);
    RewrittenUnique(slots, now, held, macros, order, n);
    RewrittenAll(end, macros, before, order, capacity);
    var g := Growths(order);
    assert g[..|order|] == g;
    PrefixBound(g, n);
  }

  /** Whether the wanted macros fit the store at all, and if not why. */
  function Admitted(writable: bool, macros: seq<Macro>, before: seq<Macro>, capacity: nat, space: nat): Result<(),
                    WriteError> {
    if !writable then Err(ReadOnly)
    else if |macros| > capacity then Err(TooManySlots)
    else if !AllEncodable(macros) then Err(TooLong)
    else if Total(macros) + capacity - |macros| > space then Err(TooMuchStorage)
    else if !AllEncodable(before) then Err(TooLong)
    else Ok(())
  }

  /** Exactly the rewrites of a writable store that has the slots, the space and
      macros short enough; and of several reasons to refuse, which is given. */
  lemma AdmittedExactly(writable: bool, macros: seq<Macro>, before: seq<Macro>, capacity: nat, space: nat)
    ensures Admitted(writable, macros, before, capacity, space).Ok? <==>
            && writable && |macros| <= capacity && AllEncodable(macros) && AllEncodable(before)
            && Total(Padded(macros, capacity)) <= space
    ensures Admitted(writable, macros, before, capacity, space) == Err(TooMuchStorage) ==>
      writable && |macros| <= capacity && Total(Padded(macros, capacity)) > space
    ensures Admitted(writable, macros, before, capacity, space) == Err(TooLong) ==>
      exists m :: m in macros + before && |m| > MACRO_CAPACITY
  {
    if |macros| <= capacity { PaddedTotal(macros, capacity); }
    assert forall m :: m in macros + before <==> m in macros || m in before;
    hide Total, Padded;
  }

  /** The whole rewrite. It succeeds whenever the wanted macros fit: in this
      order the store refuses no write on the way. */
  method WriteMacroSpace(store: MacroStore, macros: seq<Macro>, before: seq<Macro>) returns (result: Result<(),
                         WriteError>)
    requires |before| <= |store.slots| <= 255 && store.slots == Padded(before, |store.slots|)
    requires store.Valid()
    modifies store
    ensures store.Valid()
    ensures result == Admitted(store.writable, macros, before, |old(store.slots)|, store.space)
    ensures result.Ok? <==>
      && store.writable && |macros| <= |old(store.slots)| && AllEncodable(macros) && AllEncodable(before)
      && Total(Padded(macros, |old(store.slots)|)) <= store.space
    ensures store.slots == if result.Ok? then Padded(macros, |old(store.slots)|) else old(store.slots)
  {
    if !store.writable { return Err(ReadOnly); }
    var capacity := |store.slots|;
    if |macros| > capacity { return Err(TooManySlots); }
    var encodable := CheckEncodable(macros);
    if !encodable { return Err(TooLong); }
    PaddedTotal(macros, capacity);
    if Total(macros) + capacity - |macros| > store.space { return Err(TooMuchStorage); }
    var known := CheckEncodable(before);
    if !known { return Err(TooLong); }
    var order := Plan(macros, before);
    ghost var held := store.slots;
    hide Total, Padded, Growth;
    for n := 0 to |order|
      invariant store.Valid() && Rewritten(store.slots, held, macros, order, n)
    {
      var index := order[n].index;
      assert order[n] in order;
      var wanted := SlotOr(macros, index);
      RewrittenStep(store.slots, held, macros, order, n);
      NeverAboveBoth(store.slots[index := wanted], macros, before, order, n + 1, capacity);
      HeldSlot(before, capacity, index);
      if !(index < |before| && before[index] == wanted) {
        var ok := store.Write(index, wanted);
        if !ok { return Err(Rejected); }
      } else {
        assert store.slots[index := wanted] == store.slots;
      }
    }
    RewrittenAll(store.slots, macros, before, order, capacity);
    result := Ok(());
  }

  lemma HeldSlot(before: seq<Macro>, capacity: nat, index: nat)
    requires |before| <= capacity && index < capacity
    ensures Padded(before, capacity)[index] == SlotOr(before, index)
  {
  }

  /** An example of why the order matters: growing first overflows where shrinking
      first fits. */
  lemma GrowingFirstOverflows()
    ensures var before, wanted := [[], [1, 2, 3]], [[1, 2, 3], []];
            && Total(before) == Total(wanted) == 5
            && Total(before[0 := wanted[0]]) == 8
            && Total(before[1 := wanted[1]]) == 2
  {
    var before: seq<Macro>, wanted: seq<Macro> := [[], [1, 2, 3]], [[1, 2, 3], []];
    assert before[..1] == [[]] && [[]][..0] == before[..0] == [];
    assert before == [before[0]] + [before[1]] && wanted == [wanted[0]] + [wanted[1]];
    TotalAppend([before[0]], [before[1]]);
    TotalAppend([wanted[0]], [wanted[1]]);
    TotalOne([]);
    TotalOne([1, 2, 3]);
    TotalUpdate(before, 0, wanted[0]);
    TotalUpdate(before, 1, wanted[1]);
  }
}

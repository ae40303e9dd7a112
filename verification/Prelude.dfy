/** Stock result types, the machine integers of the firmware, and the few
    facts about sequences that several modules need. */
module Prelude {

  datatype Option<+T> = None | Some(value: T) {
    function UnwrapOr(default: T): T {
      match this
      case None => default
      case Some(v) => v
    }
  }

  datatype Result<+T, +E> = Ok(value: T) | Err(error: E)

  type u8 = x: int | 0 <= x < 0x100
  type u16 = x: int | 0 <= x < 0x1_0000
  type u32 = x: int | 0 <= x < 0x1_0000_0000
  type u64 = x: int | 0 <= x < 0x1_0000_0000_0000_0000
  type NonZeroU32 = x: int | 0 < x < 0x1_0000_0000 witness 1

  function Min(a: int, b: int): int { if a <= b then a else b }

  function Max(a: int, b: int): int { if a <= b then b else a }

  function BoolByte(b: bool): u8 { if b then 1 else 0 }

  /** The elements of `s` that satisfy `keep`, in order. */
  function Filter<T(!new)>(s: seq<T>, keep: T -> bool): (r: seq<T>)
    ensures |r| <= |s|
    ensures forall x :: x in r <==> x in s && keep(x)
  {
    if s == [] then []
    else if keep(s[|s| - 1]) then Filter(s[..|s| - 1], keep) + [s[|s| - 1]]
    else Filter(s[..|s| - 1], keep)
  }

  lemma {:induction false} FilterIdempotent<T(!new)>(s: seq<T>, keep: T -> bool)
    ensures Filter(Filter(s, keep), keep) == Filter(s, keep)
  {
    if s != [] {
      FilterIdempotent(s[..|s| - 1], keep);
      var r := Filter(s, keep);
      if keep(s[|s| - 1]) {
        assert r[..|r| - 1] == Filter(s[..|s| - 1], keep);
      }
    }
  }

  /** A sequence in which everything satisfies `keep` is its own filter. */
  lemma {:induction false} FilterAll<T(!new)>(s: seq<T>, keep: T -> bool)
    requires forall x :: x in s ==> keep(x)
    ensures Filter(s, keep) == s
  {
    if s != [] {
      FilterAll(s[..|s| - 1], keep);
      assert s == s[..|s| - 1] + [s[|s| - 1]];
    }
  }

  /** `part` is what is left of `whole` after some elements were lost. */
  predicate Subsequence<T(==)>(part: seq<T>, whole: seq<T>) {
    if part == [] then true
    else if whole == [] then false
    else
      || Subsequence(part, whole[..|whole| - 1])
      || (part[|part| - 1] == whole[|whole| - 1]
          && Subsequence(part[..|part| - 1], whole[..|whole| - 1]))
  }

  /** Nothing was lost exactly when nothing is missing by count. */
  lemma {:induction false} SubsequenceLength<T>(part: seq<T>, whole: seq<T>)
    requires Subsequence(part, whole)
    ensures |part| <= |whole|
    ensures |part| == |whole| ==> part == whole
  {
    if part != [] {
      var init := whole[..|whole| - 1];
      if Subsequence(part, init) {
        SubsequenceLength(part, init);
      } else {
        SubsequenceLength(part[..|part| - 1], init);
        assert part == part[..|part| - 1] + [part[|part| - 1]];
        assert whole == init + [whole[|whole| - 1]];
      }
    }
  }

  /** Receiving or losing one more element keeps the relation. */
  lemma SubsequenceSnoc<T>(part: seq<T>, whole: seq<T>, x: T)
    requires Subsequence(part, whole)
    ensures Subsequence(part, whole + [x])
    ensures Subsequence(part + [x], whole + [x])
  {
    assert (whole + [x])[..|whole|] == whole;
    assert (part + [x])[..|part|] == part;
  }

  /** One more element, in front of position `at`. */
  function Inserted<T>(s: seq<T>, x: T, at: nat): (r: seq<T>)
    requires at <= |s|
    ensures |r| == |s| + 1 && r[at] == x
    ensures forall i :: 0 <= i < at ==> r[i] == s[i]
    ensures forall i :: at < i < |r| ==> r[i] == s[i - 1]
  {
    s[..at] + [x] + s[at..]
  }

  lemma InsertedMembers<T>(s: seq<T>, x: T, at: nat)
    requires at <= |s|
    ensures forall y :: y in Inserted(s, x, at) <==> y in s || y == x
  {
    assert s == s[..at] + s[at..];
  }
}

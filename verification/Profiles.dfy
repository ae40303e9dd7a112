/** Giving named morse profiles stable runtime slots. */
module Profiles {
  import opened Prelude

  /** Names are byte strings. */
  type Name = seq<u8>

  const NAME_MAX_LEN: nat
  const SLOTS: nat := 255

  datatype Mode = Normal | PermissiveHold | HoldOnOtherPress | TapUnlessInterrupted

  datatype ModeText = NoMode | Known(mode: Mode) | UnknownMode(text: string)

  /** `other` stands for the fields that cross unchanged. */
  datatype Settings = Settings(mode: ModeText, unilateralTap: Option<bool>, oppositeHandHold: Option<bool>, other: nat)

  datatype WireProfile = WireProfile(mode: Option<Mode>, unilateralTap: Option<bool>, oppositeHandHold: Option<bool>,
      other: nat)

  /** One entry of the profile table, which is iterated in name order. */
  datatype Profile = Profile(name: Name, index: Option<u8>, settings: Settings)

  datatype Entry = Entry(index: u8, name: Name, profile: WireProfile)

  datatype ConfigError = EmptyName | LongName | ReservedIndex | RepeatedIndex | NoFreeSlot | BadSettings

  function ToWire(s: Settings): Option<WireProfile> {
    if s.unilateralTap == Some(true) && s.oppositeHandHold == Some(true) then None
    else if s.mode.UnknownMode? then None
    else Some(WireProfile(if s.mode.NoMode? then None else Some(s.mode.mode), s.unilateralTap, s.oppositeHandHold,
      s.other))
  }

  /** A profile is refused exactly when both hand rules are on or the mode is not
      one of the four; otherwise every field arrives under its own name. */
  lemma WireFields(s: Settings)
    ensures ToWire(s).None? <==>
            (s.unilateralTap == Some(true) && s.oppositeHandHold == Some(true)) || s.mode.UnknownMode?
    ensures ToWire(s).Some? ==>
      var w := ToWire(s).value;
      && w.unilateralTap == s.unilateralTap && w.oppositeHandHold == s.oppositeHandHold && w.other == s.other
      && (w.mode.None? <==> s.mode == NoMode) && (w.mode.Some? ==> s.mode == Known(w.mode.value))
  {
  }

  function FromWire(w: WireProfile): Settings {
    Settings(if w.mode.None? then NoMode else Known(w.mode.value), w.unilateralTap, w.oppositeHandHold, w.other)
  }

  // ---- The assignment ----

  function TakenBy(profiles: seq<Profile>): (r: set<int>)
  {
    set p | p in profiles && p.index.Some? :: p.index.value as int
  }

  /** The first slot from `from` on that is not in use, or 255. */
  function LowestFree(used: set<int>, from: nat): (r: nat)
    requires from <= SLOTS
    ensures from <= r <= SLOTS && forall j :: from <= j < r ==> j in used
    ensures r < SLOTS ==> r !in used
    decreases SLOTS - from
  {
    if from < SLOTS && from in used then LowestFree(used, from + 1) else from
  }

  function SetOf(s: seq<int>): set<int> { set x | x in s }

  /** The slots of the first `n` profiles: explicit ones keep theirs, each other
      gets the lowest that no explicit one and no earlier one has. */
  function Slots(profiles: seq<Profile>, n: nat): (r: seq<int>)
    requires n <= |profiles|
    ensures |r| == n
  {
    if n == 0 then []
    else
      var before := Slots(profiles, n - 1);
      var p := profiles[n - 1];
      before + [if p.index.Some? then p.index.value else LowestFree(TakenBy(profiles) + SetOf(before), 0)]
  }

  function UsedAfter(profiles: seq<Profile>, n: nat): set<int>
    requires n <= |profiles|
  {
    TakenBy(profiles) + SetOf(Slots(profiles, n))
  }

  lemma {:induction false} SlotsPrefix(profiles: seq<Profile>, n: nat, m: nat)
    requires n <= m <= |profiles|
    ensures Slots(profiles, m)[..n] == Slots(profiles, n)
    decreases m - n
  {
    if n < m {
      SlotsPrefix(profiles, n, m - 1);
      assert Slots(profiles, m)[..n] == Slots(profiles, m - 1)[..n];
    }
  }

  lemma UsedSnoc(profiles: seq<Profile>, n: nat)
    requires n < |profiles|
    ensures UsedAfter(profiles, n + 1) == UsedAfter(profiles, n) + {Slots(profiles, n + 1)[n]}
  {
    assert Slots(profiles, n + 1)[..n] == Slots(profiles, n);
    var before, after := Slots(profiles, n), Slots(profiles, n + 1);
    assert after == before + [after[n]];
    assert SetOf(after) == SetOf(before) + {after[n]};
  }

  // ---- What can be resolved ----

  predicate NamesFit(profiles: seq<Profile>, n: nat)
    requires n <= |profiles|
  {
    forall k :: 0 <= k < n ==> 0 < |profiles[k].name| <= NAME_MAX_LEN
  }

  predicate ExplicitFit(profiles: seq<Profile>, n: nat)
    requires n <= |profiles|
  {
    && (forall k :: 0 <= k < n ==> profiles[k].index != Some(255))
    && (forall i, k :: 0 <= i < k < n && profiles[i].index.Some? ==> profiles[i].index != profiles[k].index)
  }

  predicate SettingsFit(profiles: seq<Profile>, n: nat)
    requires n <= |profiles|
  {
    forall k :: 0 <= k < n ==> ToWire(profiles[k].settings).Some?
  }

  /** Exactly what resolves. */
  predicate Resolvable(profiles: seq<Profile>) {
    var n := |profiles|;
    NamesFit(profiles, n) && ExplicitFit(profiles, n) && SettingsFit(profiles, n) && n <= SLOTS
  }

  // ---- There is always room ----

  function Implicits(profiles: seq<Profile>, n: nat): (r: nat)
    requires n <= |profiles|
    ensures r <= n
  {
    if n == 0 then 0 else Implicits(profiles, n - 1) + (if profiles[n - 1].index.None? then 1 else 0)
  }

  lemma {:induction false} ImplicitsGrow(profiles: seq<Profile>, n: nat, m: nat)
    requires n <= m <= |profiles|
    ensures Implicits(profiles, n) <= Implicits(profiles, m)
    decreases m - n
  {
    if n < m { ImplicitsGrow(profiles, n, m - 1); }
  }

  lemma TakenSnoc(profiles: seq<Profile>, n: nat)
    requires n < |profiles|
    ensures TakenBy(profiles[..n + 1]) ==
            TakenBy(profiles[..n]) + (if profiles[n].index.Some? then {profiles[n].index.value as int} else {})
  {
    assert profiles[..n + 1] == profiles[..n] + [profiles[n]];
  }

  lemma {:induction false} TakenSize(profiles: seq<Profile>, n: nat)
    requires n <= |profiles|
    ensures |TakenBy(profiles[..n])| <= n - Implicits(profiles, n)
  {
    if n == 0 {
      assert TakenBy(profiles[..0]) == {};
    } else {
      hide TakenBy;
      TakenSize(profiles, n - 1);
      TakenSnoc(profiles, n - 1);
    }
  }

  lemma {:induction false} UsedSize(profiles: seq<Profile>, n: nat)
    requires n <= |profiles|
    ensures |UsedAfter(profiles, n)| <= |profiles| - Implicits(profiles, |profiles|) + Implicits(profiles, n)
  {
    if n == 0 {
      TakenSize(profiles, |profiles|);
      assert profiles[..|profiles|] == profiles;
      assert UsedAfter(profiles, 0) == TakenBy(profiles);
    } else {
      UsedSize(profiles, n - 1);
      UsedSnoc(profiles, n - 1);
      var p := profiles[n - 1];
      if p.index.Some? {
        assert p in profiles && p.index.value as int in UsedAfter(profiles, n - 1);
        assert UsedAfter(profiles, n) == UsedAfter(profiles, n - 1);
      }
    }
  }

  lemma {:induction false} Interval(n: nat, s: set<int>)
    requires forall j :: 0 <= j < n ==> j in s
    ensures |s| >= n
  {
    if n > 0 {
      Interval(n - 1, s - {n - 1});
    }
  }

  /** An implicit profile always finds a slot. */
  lemma RoomForImplicit(profiles: seq<Profile>, n: nat)
    requires n < |profiles| <= SLOTS && profiles[n].index.None?
    ensures LowestFree(UsedAfter(profiles, n), 0) < SLOTS
  {
    UsedSize(profiles, n);
    ImplicitsGrow(profiles, n + 1, |profiles|);
    if LowestFree(UsedAfter(profiles, n), 0) == SLOTS {
      Interval(SLOTS, UsedAfter(profiles, n));
    }
  }

  predicate DistinctInts(s: seq<int>) { forall i, k :: 0 <= i < k < |s| ==> s[i] != s[k] }

  /** Everything below the slot is explicit or went to an earlier profile. */
  predicate Lowest(slots: seq<int>, k: nat, taken: set<int>)
    requires k < |slots|
  {
    forall j :: 0 <= j < slots[k] ==> j in taken || j in slots[..k]
  }

  /** A slot as it should be given: the explicit one, or the lowest that no
      explicit profile and no earlier one has. */
  predicate GoodSlot(profiles: seq<Profile>, slots: seq<int>, k: nat)
    requires k < |slots| <= |profiles|
  {
    && 0 <= slots[k] < SLOTS
    && (match profiles[k].index
        case Some(index) => slots[k] == index
        case None => slots[k] !in TakenBy(profiles) && Lowest(slots, k, TakenBy(profiles)))
  }

  lemma GoodStays(profiles: seq<Profile>, slots: seq<int>, more: seq<int>, k: nat)
    requires k < |slots| <= |more| <= |profiles| && more[..|slots|] == slots && GoodSlot(profiles, slots, k)
    ensures GoodSlot(profiles, more, k)
  {
    assert more[..k] == slots[..k] && more[k] == slots[k];
    hide TakenBy;
  }

  /** No implicit profile among the first `n` finds every slot in use. */
  ghost predicate Roomy(profiles: seq<Profile>, n: nat)
    requires n <= |profiles|
  {
    forall k :: 0 <= k < n && profiles[k].index.None? ==> LowestFree(UsedAfter(profiles, k), 0) < SLOTS
  }

  lemma AlwaysRoomy(profiles: seq<Profile>, n: nat)
    requires n <= |profiles| <= SLOTS
    ensures Roomy(profiles, n)
  {
    forall k | 0 <= k < n && profiles[k].index.None? ensures LowestFree(UsedAfter(profiles, k), 0) < SLOTS {
      RoomForImplicit(profiles, k);
    }
  }

  lemma NewImplicit(profiles: seq<Profile>, n: nat)
    requires n < |profiles| && profiles[n].index.None? && LowestFree(UsedAfter(profiles, n), 0) < SLOTS
    ensures GoodSlot(profiles, Slots(profiles, n + 1), n) && Slots(profiles, n + 1)[n] !in Slots(profiles, n)
  {
    var slots, before, used, taken := Slots(profiles, n + 1), Slots(profiles, n), UsedAfter(profiles, n),
      TakenBy(profiles);
    assert slots[..n] == before && slots[n] == LowestFree(used, 0);
    assert forall j :: j in used <==> j in taken || j in before;
    hide TakenBy, Slots, LowestFree, UsedAfter;
  }

  lemma NewExplicit(profiles: seq<Profile>, n: nat)
    requires n < |profiles| && profiles[n].index.Some? && profiles[n].index != Some(255)
    ensures GoodSlot(profiles, Slots(profiles, n + 1), n)
  {
    assert Slots(profiles, n + 1)[n] == profiles[n].index.value;
    hide Slots, TakenBy, Lowest;
  }

  lemma NewSlot(profiles: seq<Profile>, n: nat)
    requires n < |profiles| && ExplicitFit(profiles, |profiles|) && Roomy(profiles, n + 1)
    ensures GoodSlot(profiles, Slots(profiles, n + 1), n)
    ensures Slots(profiles, n + 1)[..n] == Slots(profiles, n)
    ensures profiles[n].index.None? ==> Slots(profiles, n + 1)[n] !in Slots(profiles, n)
  {
    SlotsPrefix(profiles, n, n + 1);
    if profiles[n].index.None? {
      hide GoodSlot, Slots, LowestFree, UsedAfter;
      NewImplicit(profiles, n);
    } else {
      hide GoodSlot, Slots, UsedAfter, LowestFree;
      assert profiles[n].index != Some(255);
      NewExplicit(profiles, n);
    }
  }

  /** The assignment: every slot is below 255 and good, and no two profiles
      share one. */
  lemma {:induction false} SlotsDistinct(profiles: seq<Profile>, n: nat)
    requires n <= |profiles| && ExplicitFit(profiles, |profiles|) && Roomy(profiles, n)
    ensures DistinctInts(Slots(profiles, n))
    ensures forall k :: 0 <= k < n ==> GoodSlot(profiles, Slots(profiles, n), k)
  {
    if n > 0 {
      SlotsDistinct(profiles, n - 1);
      NewSlot(profiles, n - 1);
      var before, slots, p := Slots(profiles, n - 1), Slots(profiles, n), profiles[n - 1];
      hide Slots;
      forall k | 0 <= k < n - 1 ensures GoodSlot(profiles, slots, k) && slots[k] != slots[n - 1] {
        GoodStays(profiles, before, slots, k);
        assert slots[k] == before[k] && before[k] in before;
        if p.index.Some? { assert p in profiles && p.index.value as int in TakenBy(profiles); }
      }
      assert forall i, k :: 0 <= i < k < n - 1 ==> slots[i] == before[i] && slots[k] == before[k];
    }
  }

  lemma {:induction false} DistinctSize(s: seq<int>)
    requires DistinctInts(s)
    ensures |SetOf(s)| == |s|
  {
    if s == [] {
      assert SetOf(s) == {};
    } else {
      var init, last := s[..|s| - 1], s[|s| - 1];
      DistinctSize(init);
      assert s == init + [last] && last !in init;
      assert SetOf(s) == SetOf(init) + {last};
    }
  }

  lemma {:induction false} BelowSize(s: set<int>, n: nat)
    requires forall x :: x in s ==> 0 <= x < n
    ensures |s| <= n
  {
    if n == 0 {
      assert forall x :: x !in s;
      assert s == {};
    } else {
      BelowSize(s - {n - 1}, n - 1);
    }
  }

  /** Only so many profiles can have found room. */
  lemma RoomyMeansFew(profiles: seq<Profile>)
    requires ExplicitFit(profiles, |profiles|) && Roomy(profiles, |profiles|)
    ensures |profiles| <= SLOTS
  {
    SlotsDistinct(profiles, |profiles|);
    var slots := Slots(profiles, |profiles|);
    DistinctSize(slots);
    forall x | x in SetOf(slots) ensures 0 <= x < SLOTS {
      var k :| 0 <= k < |slots| && slots[k] == x;
      assert GoodSlot(profiles, slots, k);
    }
    BelowSize(SetOf(slots), SLOTS);
  }

  // ---- Entries ----

  function EntryOf(p: Profile, slot: int): Entry
    requires 0 <= slot < SLOTS && ToWire(p.settings).Some?
  {
    Entry(slot, p.name, ToWire(p.settings).value)
  }

  predicate Increasing(entries: seq<Entry>) {
    forall i, k :: 0 <= i < k < |entries| ==> entries[i].index < entries[k].index
  }

  /** What every resolved entry holds, by its fields: the name, the settings and,
      where one was given, the index of a profile of the table. */
  lemma EntryFields(profiles: seq<Profile>, entries: seq<Entry>, e: Entry) returns (p: Profile)
    requires Resolvable(profiles) && Resolved(profiles, entries) && e in entries
    ensures p in profiles && e.name == p.name && (p.index.Some? ==> e.index == p.index.value)
    ensures e.profile.unilateralTap == p.settings.unilateralTap
            && e.profile.oppositeHandHold == p.settings.oppositeHandHold && e.profile.other == p.settings.other
            && FromWire(e.profile).mode == p.settings.mode
  {
    AlwaysRoomy(profiles, |profiles|);
    SlotsDistinct(profiles, |profiles|);
    var slots := Slots(profiles, |profiles|);
    var k :| 0 <= k < |profiles| && e == EntryAt(profiles, slots, k);
    assert GoodSlot(profiles, slots, k);
    p := profiles[k];
    WireFields(p.settings);
    hide Resolvable, Resolved, Slots, ToWire;
  }

  /** The entries are those of the assignment, in slot order. */
  ghost predicate Resolved(profiles: seq<Profile>, entries: seq<Entry>)
    requires Resolvable(profiles)
  {
    AlwaysRoomy(profiles, |profiles|);
    SlotsDistinct(profiles, |profiles|);
    var slots := Slots(profiles, |profiles|);
    && Increasing(entries) && |entries| == |profiles|
    && (forall k :: 0 <= k < |profiles| ==> EntryAt(profiles, slots, k) in entries)
    && (forall e :: e in entries ==> exists k :: 0 <= k < |profiles| && e == EntryAt(profiles, slots, k))
  }

  ghost function EntryAt(profiles: seq<Profile>, slots: seq<int>, k: nat): Entry
    requires k < |profiles| == |slots| && GoodSlot(profiles, slots, k) && ToWire(profiles[k].settings).Some?
  {
    EntryOf(profiles[k], slots[k])
  }

  /** The entries of the first `n` profiles, in name order. */
  ghost function EntriesOf(profiles: seq<Profile>, n: nat): (r: seq<Entry>)
    requires n <= |profiles| && Resolvable(profiles)
    ensures |r| == n
  {
    AlwaysRoomy(profiles, |profiles|);
    SlotsDistinct(profiles, |profiles|);
    seq(n, k requires 0 <= k < n => EntryAt(profiles, Slots(profiles, |profiles|), k))
  }

  lemma EntriesDistinct(profiles: seq<Profile>)
    requires Resolvable(profiles)
    ensures var r := EntriesOf(profiles, |profiles|);
            forall i, k :: 0 <= i < k < |r| ==> r[i].index != r[k].index
  {
    AlwaysRoomy(profiles, |profiles|);
    SlotsDistinct(profiles, |profiles|);
    hide Slots, GoodSlot;
  }

  // ---- Sorting ----

  lemma InsertedIncreasing(entries: seq<Entry>, e: Entry, at: nat)
    requires Increasing(entries) && at <= |entries|
    requires at > 0 ==> entries[at - 1].index < e.index
    requires at < |entries| ==> e.index < entries[at].index
    ensures Increasing(Inserted(entries, e, at))
  {
    hide Inserted;
  }

  method SortByIndex(entries: seq<Entry>) returns (r: seq<Entry>)
    requires forall i, k :: 0 <= i < k < |entries| ==> entries[i].index != entries[k].index
    ensures Increasing(r) && |r| == |entries| && forall e :: e in r <==> e in entries
  {
    r := [];
    for n := 0 to |entries|
      invariant Increasing(r) && |r| == n && forall e :: e in r <==> e in entries[..n]
    {
      var e := entries[n];
      assert entries[..n + 1] == entries[..n] + [e];
      var at := n;
      while at > 0 && r[at - 1].index > e.index
        invariant 0 <= at <= n && (at < n ==> e.index < r[at].index)
      {
        at := at - 1;
      }
      if at > 0 {
        assert r[at - 1] in entries[..n];
        var k :| 0 <= k < n && entries[k] == r[at - 1];
      }
      InsertedIncreasing(r, e, at);
      InsertedMembers(r, e, at);
      r := Inserted(r, e, at);
    }
    assert entries[..|entries|] == entries;
  }

  // ---- The resolver ----

  /** The explicit indices of the first `n` profiles are exactly what is marked. */
  ghost predicate Marked(occupied: seq<bool>, used: set<int>) {
    |occupied| == SLOTS && forall j :: 0 <= j < SLOTS ==> (occupied[j] <==> j in used)
  }

  /** Names and explicit indices, in name order. */
  method CheckExplicit(profiles: seq<Profile>, occupied: array<bool>) returns (error: Option<ConfigError>)
    requires occupied.Length == SLOTS && forall j :: 0 <= j < SLOTS ==> !occupied[j]
    modifies occupied
    ensures error.None? <==> NamesFit(profiles, |profiles|) && ExplicitFit(profiles, |profiles|)
    ensures error.None? ==> Marked(occupied[..], TakenBy(profiles))
  {
    for n := 0 to |profiles|
      invariant NamesFit(profiles, n) && ExplicitFit(profiles, n)
      invariant Marked(occupied[..], TakenBy(profiles[..n]))
    {
      var p := profiles[n];
      TakenSnoc(profiles, n);
      if p.name == [] { return Some(EmptyName); }
      if |p.name| > NAME_MAX_LEN { return Some(LongName); }
      if p.index.Some? {
        if p.index.value == 255 { return Some(ReservedIndex); }
        if occupied[p.index.value] {
          TakenWitness(profiles, n, p.index.value);
          return Some(RepeatedIndex);
        }
        assert forall i :: 0 <= i < n ==> profiles[i] in profiles[..n];
        occupied[p.index.value] := true;
      }
    }
    assert profiles[..|profiles|] == profiles;
    error := None;
  }

  lemma TakenWitness(profiles: seq<Profile>, n: nat, index: u8)
    requires n < |profiles| && index in TakenBy(profiles[..n]) && profiles[n].index == Some(index)
    ensures !ExplicitFit(profiles, |profiles|)
  {
    var p :| p in profiles[..n] && p.index == Some(index);
    var i :| 0 <= i < n && profiles[i] == p;
  }

  method FirstFree(occupied: array<bool>, ghost used: set<int>) returns (index: Option<nat>)
    requires Marked(occupied[..], used)
    ensures index == if LowestFree(used, 0) < SLOTS then Some(LowestFree(used, 0)) else None
  {
    for j := 0 to SLOTS
      invariant LowestFree(used, 0) == LowestFree(used, j)
    {
      if !occupied[j] { return Some(j); }
    }
    index := None;
  }

  lemma MarkedLength(occupied: seq<bool>, used: set<int>)
    requires Marked(occupied, used)
    ensures |occupied| == SLOTS
  {
  }

  lemma MarkedAdds(occupied: seq<bool>, used: set<int>, slot: nat)
    requires Marked(occupied, used) && slot < SLOTS
    ensures Marked(occupied[slot := true], used + {slot})
  {
  }

  lemma MarkedStep(occupied: seq<bool>, profiles: seq<Profile>, n: nat)
    requires n < |profiles| && Marked(occupied, UsedAfter(profiles, n))
    ensures var slot := Slots(profiles, |profiles|)[n];
            && (profiles[n].index.Some? ==> Marked(occupied, UsedAfter(profiles, n + 1)))
            && (0 <= slot < SLOTS ==> |occupied| == SLOTS && Marked(occupied[slot := true], UsedAfter(profiles, n + 1)))
  {
    hide UsedAfter, Slots, LowestFree, Marked;
    SlotAt(profiles, n);
    UsedSnoc(profiles, n);
    MarkedLength(occupied, UsedAfter(profiles, n));
    var slot := Slots(profiles, |profiles|)[n];
    if 0 <= slot < SLOTS { MarkedAdds(occupied, UsedAfter(profiles, n), slot); }
    assert slot in UsedAfter(profiles, n) ==> UsedAfter(profiles, n + 1) == UsedAfter(profiles, n);
  }

  lemma RoomyStep(profiles: seq<Profile>, n: nat)
    requires n < |profiles| && Roomy(profiles, n)
    ensures profiles[n].index.Some? || LowestFree(UsedAfter(profiles, n), 0) < SLOTS ==> Roomy(profiles, n + 1)
  {
    hide UsedAfter, LowestFree;
  }

  /** The slot of profile `n`, marked as taken; `None` when every slot is. */
  method Claim(profiles: seq<Profile>, n: nat, occupied: array<bool>) returns (index: Option<u8>)
    requires n < |profiles| && ExplicitFit(profiles, |profiles|) && Marked(occupied[..], UsedAfter(profiles, n))
    modifies occupied
    ensures index.Some? ==>
      && index.value == Slots(profiles, |profiles|)[n] && Marked(occupied[..], UsedAfter(profiles, n + 1))
      && (profiles[n].index.Some? || LowestFree(UsedAfter(profiles, n), 0) < SLOTS)
    ensures index.None? ==> !Resolvable(profiles)
  {
    hide UsedAfter, ExplicitFit, Slots, LowestFree, Resolvable, Marked;
    ghost var before := occupied[..];
    SlotAt(profiles, n);
    MarkedStep(before, profiles, n);
    var p := profiles[n];
    if p.index.Some? {
      ExplicitInRange(profiles, n);
      return p.index;
    }
    var free := FirstFree(occupied, UsedAfter(profiles, n));
    if free.None? {
      NoRoom(profiles, n);
      return None;
    }
    MarkedLength(before, UsedAfter(profiles, n));
    occupied[free.value] := true;
    assert occupied[..] == before[free.value := true];
    index := Some(free.value);
  }

  /** The second pass: every profile's slot, in name order. */
  method Assign(profiles: seq<Profile>, occupied: array<bool>) returns (r: Result<seq<Entry>, ConfigError>)
    requires NamesFit(profiles, |profiles|) && ExplicitFit(profiles, |profiles|)
    requires Marked(occupied[..], TakenBy(profiles))
    modifies occupied
    ensures r.Err? ==> !Resolvable(profiles)
    ensures r.Ok? ==>
      Roomy(profiles, |profiles|) && SettingsFit(profiles, |profiles|) && Listed(r.value, profiles, |profiles|)
  {
    var entries: seq<Entry> := [];
    assert UsedAfter(profiles, 0) == TakenBy(profiles);
    assert Roomy(profiles, 0) && SettingsFit(profiles, 0) && Listed(entries, profiles, 0);
    hide UsedAfter, ExplicitFit, NamesFit, Slots, LowestFree, ToWire, Resolvable, TakenBy, Listed, Marked, Roomy,
      SettingsFit;
    for n := 0 to |profiles|
      invariant Roomy(profiles, n) && SettingsFit(profiles, n)
      invariant Marked(occupied[..], UsedAfter(profiles, n))
      invariant Listed(entries, profiles, n)
    {
      var p := profiles[n];
      var index := Claim(profiles, n, occupied);
      if index.None? { return Err(NoFreeSlot); }
      RoomyStep(profiles, n);
      if ToWire(p.settings).None? {
        BadSettingsFail(profiles, n);
        return Err(BadSettings);
      }
      var entry := Entry(index.value, p.name, ToWire(p.settings).value);
      ListedSnoc(entries, profiles, n, entry);
      entries := entries + [entry];
    }
    r := Ok(entries);
  }

  /** Name order to slots and back to slot order. It succeeds exactly on the
      resolvable tables. */
  method Resolve(profiles: seq<Profile>) returns (result: Result<seq<Entry>, ConfigError>)
    ensures result.Ok? <==> Resolvable(profiles)
    ensures result.Ok? ==> Resolved(profiles, result.value)
  {
    var occupied := new bool[SLOTS](_ => false);
    var error := CheckExplicit(profiles, occupied);
    if error.Some? { return Err(error.value); }
    hide Listed, Roomy, Slots, EntriesOf, Marked, SettingsFit, NamesFit, ExplicitFit, Resolved;
    var entries := Assign(profiles, occupied);
    if entries.Err? { return Err(entries.error); }
    RoomyMeansFew(profiles);
    ListedAll(entries.value, profiles);
    EntriesDistinct(profiles);
    var sorted := SortByIndex(entries.value);
    ResolvedAll(sorted, profiles);
    result := Ok(sorted);
  }

  lemma ExplicitInRange(profiles: seq<Profile>, n: nat)
    requires n < |profiles| && ExplicitFit(profiles, |profiles|)
    ensures profiles[n].index != Some(255)
  {
  }

  lemma BadSettingsFail(profiles: seq<Profile>, n: nat)
    requires n < |profiles| && ToWire(profiles[n].settings).None?
    ensures !Resolvable(profiles)
  {
    hide ToWire;
  }

  /** The entries of the first `n` profiles. */
  ghost predicate Listed(entries: seq<Entry>, profiles: seq<Profile>, n: nat)
    requires n <= |profiles|
  {
    && |entries| == n
    && forall k :: 0 <= k < n ==> Fits(entries[k], profiles[k], Slots(profiles, |profiles|)[k])
  }

  /** The entry a profile gets with a slot. */
  predicate Fits(e: Entry, p: Profile, slot: int) {
    e.index == slot && e.name == p.name && Some(e.profile) == ToWire(p.settings)
  }

  lemma ListedSnoc(entries: seq<Entry>, profiles: seq<Profile>, n: nat, entry: Entry)
    requires n < |profiles| && SettingsFit(profiles, n) && Listed(entries, profiles, n)
    requires Fits(entry, profiles[n], Slots(profiles, |profiles|)[n])
    ensures SettingsFit(profiles, n + 1)
    ensures Listed(entries + [entry], profiles, n + 1)
  {
    hide ToWire, Slots;
  }

  lemma SlotAt(profiles: seq<Profile>, n: nat)
    requires n < |profiles|
    ensures var slot := Slots(profiles, |profiles|)[n];
            && slot == Slots(profiles, n + 1)[n]
            && slot == (if profiles[n].index.Some? then profiles[n].index.value else LowestFree(UsedAfter(profiles,
              n), 0))
            && (profiles[n].index.Some? ==> slot in UsedAfter(profiles, n))
  {
    SlotsPrefix(profiles, n + 1, |profiles|);
    if profiles[n].index.Some? { assert profiles[n] in profiles; }
    hide LowestFree;
  }

  lemma NoRoom(profiles: seq<Profile>, n: nat)
    requires n < |profiles| && profiles[n].index.None? && LowestFree(UsedAfter(profiles, n), 0) >= SLOTS
    ensures !Resolvable(profiles)
  {
    if |profiles| <= SLOTS { RoomForImplicit(profiles, n); }
  }

  lemma ListedAll(entries: seq<Entry>, profiles: seq<Profile>)
    requires Resolvable(profiles) && Listed(entries, profiles, |profiles|)
    ensures entries == EntriesOf(profiles, |profiles|)
  {
    AlwaysRoomy(profiles, |profiles|);
    SlotsDistinct(profiles, |profiles|);
    hide Slots, ToWire;
  }

  lemma ResolvedAll(sorted: seq<Entry>, profiles: seq<Profile>)
    requires Resolvable(profiles) && Increasing(sorted) && |sorted| == |profiles|
    requires forall e :: e in sorted <==> e in EntriesOf(profiles, |profiles|)
    ensures Resolved(profiles, sorted)
  {
    AlwaysRoomy(profiles, |profiles|);
    SlotsDistinct(profiles, |profiles|);
    var slots, listed := Slots(profiles, |profiles|), EntriesOf(profiles, |profiles|);
    hide Slots, ToWire, GoodSlot, Increasing;
    forall k | 0 <= k < |profiles| ensures EntryAt(profiles, slots, k) in sorted {
      assert listed[k] in listed;
    }
    forall e | e in sorted ensures exists k :: 0 <= k < |profiles| && e == EntryAt(profiles, slots, k) {
      var k :| 0 <= k < |listed| && listed[k] == e;
    }
  }

  // ---- Names by slot ----

  /** The name a slot ends up with: that of the last entry for it. */
  function NameAt(entries: seq<Entry>, slot: nat): Name {
    if entries == [] then []
    else if entries[|entries| - 1].index == slot then entries[|entries| - 1].name
    else NameAt(entries[..|entries| - 1], slot)
  }

  method ProfileNamesBySlot(entries: seq<Entry>) returns (names: seq<Name>)
    ensures entries == [] ==> names == []
    ensures entries != [] ==> exists e :: e in entries && |names| == e.index + 1
    ensures forall e :: e in entries ==> e.index < |names|
    ensures forall i :: 0 <= i < |names| ==> names[i] == NameAt(entries, i)
  {
    if entries == [] { return []; }
    var last := entries[0];
    for n := 1 to |entries|
      invariant last in entries && forall k :: 0 <= k < n ==> entries[k].index <= last.index
    {
      if entries[n].index > last.index { last := entries[n]; }
    }
    var slots := new Name[last.index + 1](_ => []);
    for n := 0 to |entries|
      invariant forall i :: 0 <= i < slots.Length ==> slots[i] == NameAt(entries[..n], i)
    {
      assert entries[..n + 1][..n] == entries[..n];
      slots[entries[n].index] := entries[n].name;
    }
    assert entries[..|entries|] == entries;
    names := slots[..];
  }

  lemma {:induction false} NameOfEntry(entries: seq<Entry>, k: nat)
    requires Increasing(entries) && k < |entries|
    ensures NameAt(entries, entries[k].index) == entries[k].name
  {
    if k < |entries| - 1 {
      NameOfEntry(entries[..|entries| - 1], k);
    }
  }

  lemma {:induction false} NameOfNoEntry(entries: seq<Entry>, slot: nat)
    requires forall e :: e in entries ==> e.index != slot
    ensures NameAt(entries, slot) == []
  {
    if entries != [] { NameOfNoEntry(entries[..|entries| - 1], slot); }
  }

  /** The names invert the assignment: a slot's name is the profile that has the
      slot, and is empty exactly when none does. */
  lemma NamesInvert(profiles: seq<Profile>, entries: seq<Entry>, slot: nat)
    requires Resolvable(profiles) && Resolved(profiles, entries)
    ensures var slots := Slots(profiles, |profiles|);
            && (forall k :: 0 <= k < |profiles| && slots[k] == slot ==> NameAt(entries, slot) == profiles[k].name)
            && (NameAt(entries, slot) == [] <==> slot !in slots)
  {
    var slots := Slots(profiles, |profiles|);
    AlwaysRoomy(profiles, |profiles|);
    SlotsDistinct(profiles, |profiles|);
    hide Slots, GoodSlot, ToWire;
    forall k | 0 <= k < |profiles| && slots[k] == slot ensures NameAt(entries, slot) == profiles[k].name {
      var e := EntryAt(profiles, slots, k);
      var i :| 0 <= i < |entries| && entries[i] == e;
      NameOfEntry(entries, i);
    }
    if slot !in slots {
      forall e | e in entries ensures e.index != slot {
        var k :| 0 <= k < |profiles| && e == EntryAt(profiles, slots, k);
        assert slots[k] in slots;
      }
      NameOfNoEntry(entries, slot);
    }
  }

  // ---- Writing the entries back ----

  function Restored(e: Entry): Profile { Profile(e.name, Some(e.index), FromWire(e.profile)) }

  function RestoredTable(entries: seq<Entry>): map<Name, Profile> {
    if entries == [] then map[]
    else RestoredTable(entries[..|entries| - 1])[entries[|entries| - 1].name := Restored(entries[|entries| - 1])]
  }

  method FromSnapshot(entries: seq<Entry>) returns (table: map<Name, Profile>)
    ensures table == RestoredTable(entries)
  {
    table := map[];
    for n := 0 to |entries|
      invariant table == RestoredTable(entries[..n])
    {
      assert entries[..n + 1][..n] == entries[..n];
      var e := entries[n];
      table := table[e.name := Profile(e.name, Some(e.index), FromWire(e.profile))];
    }
    assert entries[..|entries|] == entries;
  }

  predicate DistinctNames(entries: seq<Entry>) {
    forall i, k :: 0 <= i < k < |entries| ==> entries[i].name != entries[k].name
  }

  /** A table holds exactly what some entries restore to. */
  ghost predicate Holds(table: map<Name, Profile>, entries: seq<Entry>) {
    && |table| == |entries|
    && (forall e :: e in entries ==> e.name in table && table[e.name] == Restored(e))
    && (forall name :: name in table ==> exists e :: e in entries && e.name == name)
  }

  lemma HoldsMore(table: map<Name, Profile>, init: seq<Entry>, last: Entry)
    requires Holds(table, init) && forall e :: e in init ==> e.name != last.name
    ensures Holds(table[last.name := Restored(last)], init + [last])
  {
    hide Restored;
    var more := init + [last];
    assert last.name !in table;
    assert forall e :: e in more <==> e in init || e == last;
    var after := table[last.name := Restored(last)];
    forall name | name in after ensures exists e :: e in more && e.name == name {
      if name == last.name {
        assert last in more;
      } else {
        var e :| e in init && e.name == name;
        assert e in more;
      }
    }
  }

  lemma {:induction false} TableContents(entries: seq<Entry>)
    requires DistinctNames(entries)
    ensures Holds(RestoredTable(entries), entries)
  {
    if entries != [] {
      var init, last := entries[..|entries| - 1], entries[|entries| - 1];
      assert entries == init + [last];
      assert forall e :: e in init ==> e.name != last.name;
      assert DistinctNames(init);
      hide Holds, DistinctNames, Restored;
      TableContents(init);
      HoldsMore(RestoredTable(init), init, last);
    }
  }

  /** Some order in which a table is iterated. */
  ghost predicate Iterates(profiles: seq<Profile>, table: map<Name, Profile>) {
    && |profiles| == |table|
    && (forall p :: p in profiles ==> p.name in table && table[p.name] == p)
    && (forall name :: name in table ==> table[name] in profiles)
    && (forall i, k :: 0 <= i < k < |profiles| ==> profiles[i].name != profiles[k].name)
  }

  lemma WireRoundTrip(s: Settings)
    requires ToWire(s).Some?
    ensures ToWire(FromWire(ToWire(s).value)) == ToWire(s) && FromWire(ToWire(s).value) == s
  {
  }

  lemma EntryFacts(profiles: seq<Profile>, entries: seq<Entry>, e: Entry)
    requires Resolvable(profiles) && Resolved(profiles, entries) && e in entries
    ensures 0 < |e.name| <= NAME_MAX_LEN && e.index < 255 && ToWire(FromWire(e.profile)) == Some(e.profile)
  {
    AlwaysRoomy(profiles, |profiles|);
    SlotsDistinct(profiles, |profiles|);
    var slots := Slots(profiles, |profiles|);
    hide Slots, ToWire, FromWire, Increasing, ExplicitFit, TakenBy, Lowest;
    var k :| 0 <= k < |profiles| && e == EntryAt(profiles, slots, k);
    assert GoodSlot(profiles, slots, k) && e == EntryOf(profiles[k], slots[k]);
    WireRoundTrip(profiles[k].settings);
  }

  lemma NamesStayDistinct(profiles: seq<Profile>, entries: seq<Entry>)
    requires Resolvable(profiles) && Resolved(profiles, entries)
    requires forall i, k :: 0 <= i < k < |profiles| ==> profiles[i].name != profiles[k].name
    ensures DistinctNames(entries)
  {
    AlwaysRoomy(profiles, |profiles|);
    SlotsDistinct(profiles, |profiles|);
    var slots := Slots(profiles, |profiles|);
    hide Slots, ToWire, GoodSlot;
    forall i, j | 0 <= i < j < |entries| ensures entries[i].name != entries[j].name {
      assert entries[i] in entries && entries[j] in entries;
      var k :| 0 <= k < |profiles| && entries[i] == EntryAt(profiles, slots, k);
      var l :| 0 <= l < |profiles| && entries[j] == EntryAt(profiles, slots, l);
      assert k != l;
    }
  }

  lemma LastIsLargest(a: seq<Entry>, e: Entry)
    requires Increasing(a) && e in a
    ensures e.index <= a[|a| - 1].index && (e.index == a[|a| - 1].index ==> e == a[|a| - 1])
    ensures e in a[..|a| - 1] <==> e != a[|a| - 1]
  {
    var i :| 0 <= i < |a| && a[i] == e;
    if i < |a| - 1 { assert a[..|a| - 1][i] == e; }
  }

  lemma InitOf(a: seq<Entry>, e: Entry)
    requires a != [] && e in a[..|a| - 1]
    ensures e in a
  {
  }

  lemma InitIncreasing(a: seq<Entry>)
    requires Increasing(a) && a != []
    ensures Increasing(a[..|a| - 1])
  {
  }

  lemma {:induction false} IncreasingUnique(a: seq<Entry>, b: seq<Entry>)
    requires Increasing(a) && Increasing(b) && |a| == |b| && forall e :: e in a <==> e in b
    ensures a == b
  {
    hide Increasing;
    if a != [] {
      var x, y, c, d := a[|a| - 1], b[|b| - 1], a[..|a| - 1], b[..|b| - 1];
      assert a == c + [x] && b == d + [y];
      assert x in b && y in a;
      LastIsLargest(a, y);
      LastIsLargest(b, x);
      InitIncreasing(a);
      InitIncreasing(b);
      forall e ensures e in c <==> e in d {
        if e in c { InitOf(a, e); LastIsLargest(a, e); LastIsLargest(b, e); }
        if e in d { InitOf(b, e); LastIsLargest(a, e); LastIsLargest(b, e); }
      }
      IncreasingUnique(c, d);
    }
  }

  lemma RestoredMembers(entries: seq<Entry>, again: seq<Profile>)
    requires DistinctNames(entries) && Iterates(again, RestoredTable(entries))
    ensures forall p :: p in again <==> exists e :: e in entries && p == Restored(e)
    ensures |again| == |entries|
  {
    TableContents(entries);
    hide RestoredTable, DistinctNames;
    forall p | p in again ensures exists e :: e in entries && p == Restored(e) {
      var e :| e in entries && e.name == p.name;
    }
  }

  lemma RestoredFits(profiles: seq<Profile>, entries: seq<Entry>, again: seq<Profile>)
    requires Resolvable(profiles) && Resolved(profiles, entries)
    requires forall p :: p in again <==> exists e :: e in entries && p == Restored(e)
    ensures NamesFit(again, |again|) && SettingsFit(again, |again|)
    ensures forall k :: 0 <= k < |again| ==> again[k].index.Some? && again[k].index != Some(255)
  {
    hide Resolvable, Resolved, ToWire, FromWire;
    forall k | 0 <= k < |again|
      ensures 0 < |again[k].name| <= NAME_MAX_LEN && again[k].index.Some? && again[k].index != Some(255)
      ensures ToWire(again[k].settings).Some?
    {
      assert again[k] in again;
      var e :| e in entries && again[k] == Restored(e);
      EntryFacts(profiles, entries, e);
    }
  }

  lemma RestoredDistinct(entries: seq<Entry>, again: seq<Profile>)
    requires Increasing(entries) && forall p :: p in again <==> exists e :: e in entries && p == Restored(e)
    requires forall i, k :: 0 <= i < k < |again| ==> again[i].name != again[k].name
    ensures forall i, k :: 0 <= i < k < |again| ==> again[i].index != again[k].index
  {
    forall i, k | 0 <= i < k < |again| ensures again[i].index != again[k].index {
      assert again[i] in again && again[k] in again;
      var e :| e in entries && again[i] == Restored(e);
      var f :| f in entries && again[k] == Restored(f);
      var x :| 0 <= x < |entries| && entries[x] == e;
      var y :| 0 <= y < |entries| && entries[y] == f;
      hide Restored;
    }
  }

  /** What was written back is all explicit, and resolves. */
  lemma RestoredResolvable(profiles: seq<Profile>, entries: seq<Entry>, again: seq<Profile>)
    requires Resolvable(profiles) && Resolved(profiles, entries) && DistinctNames(entries)
    requires Iterates(again, RestoredTable(entries))
    ensures Resolvable(again) && |again| == |entries|
    ensures forall p :: p in again <==> exists e :: e in entries && p == Restored(e)
  {
    hide Resolvable, Resolved, Restored, DistinctNames, RestoredTable;
    assert forall i, k :: 0 <= i < k < |again| ==> again[i].name != again[k].name;
    hide Iterates;
    RestoredMembers(entries, again);
    ResolvedShape(profiles, entries);
    RestoredFits(profiles, entries, again);
    RestoredDistinct(entries, again);
    AllExplicit(again);
  }

  lemma ResolvedShape(profiles: seq<Profile>, entries: seq<Entry>)
    requires Resolvable(profiles) && Resolved(profiles, entries)
    ensures Increasing(entries) && |entries| == |profiles| <= SLOTS
  {
    hide Slots, GoodSlot, ToWire;
  }

  lemma AllExplicit(profiles: seq<Profile>)
    requires NamesFit(profiles, |profiles|) && SettingsFit(profiles, |profiles|) && |profiles| <= SLOTS
    requires forall k :: 0 <= k < |profiles| ==> profiles[k].index != Some(255)
    requires forall i, k :: 0 <= i < k < |profiles| ==> profiles[i].index != profiles[k].index
    ensures Resolvable(profiles)
  {
    hide NamesFit, SettingsFit;
  }

  /** Writing the entries back with explicit indices and resolving again gives
      the same entries, in whatever order the table is iterated. */
  lemma ProfilesRoundTrip(profiles: seq<Profile>, entries: seq<Entry>, again: seq<Profile>, result: seq<Entry>)
    requires Resolvable(profiles) && Resolved(profiles, entries)
    requires forall i, k :: 0 <= i < k < |profiles| ==> profiles[i].name != profiles[k].name
    requires Iterates(again, RestoredTable(entries))
    ensures Resolvable(again) && (Resolved(again, result) <==> result == entries)
  {
    NamesStayDistinct(profiles, entries);
    RestoredResolvable(profiles, entries, again);
    hide RestoredTable, Iterates;
    AlwaysRoomy(again, |again|);
    SlotsDistinct(again, |again|);
    SameEntries(profiles, entries, again);
    if Resolved(again, result) {
      SameMembers(again, entries, result);
      IncreasingUnique(result, entries);
    }
  }

  lemma SameEntries(profiles: seq<Profile>, entries: seq<Entry>, again: seq<Profile>)
    requires Resolvable(profiles) && Resolved(profiles, entries) && Resolvable(again) && |again| == |entries|
    requires forall p :: p in again <==> exists e :: e in entries && p == Restored(e)
    ensures Resolved(again, entries)
  {
    AlwaysRoomy(again, |again|);
    SlotsDistinct(again, |again|);
    var slots := Slots(again, |again|);
    forall k | 0 <= k < |again| ensures EntryAt(again, slots, k) in entries {
      assert again[k] in again;
      var e :| e in entries && again[k] == Restored(e);
      EntryFacts(profiles, entries, e);
      assert GoodSlot(again, slots, k);
    }
    forall e | e in entries ensures exists k :: 0 <= k < |again| && e == EntryAt(again, slots, k) {
      assert Restored(e) in again;
      var k :| 0 <= k < |again| && again[k] == Restored(e);
      EntryFacts(profiles, entries, e);
      assert GoodSlot(again, slots, k);
      assert e == EntryAt(again, slots, k);
    }
  }

  lemma SameMembers(profiles: seq<Profile>, a: seq<Entry>, b: seq<Entry>)
    requires Resolvable(profiles) && Resolved(profiles, a) && Resolved(profiles, b)
    ensures |a| == |b| && forall e :: e in a <==> e in b
  {
    AlwaysRoomy(profiles, |profiles|);
    SlotsDistinct(profiles, |profiles|);
    hide Slots, ToWire, GoodSlot;
  }
}

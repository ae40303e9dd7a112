/** Bounded recovery from attestation mismatches. */
module Recovery {
  import opened Prelude
  import opened Lighting

  datatype Decision = Matching | Recover | Stale | Halt

  datatype RecoveryState = RecoveryState(target: Option<u32>, mismatchCount: u8, awaitingPostResync: bool)

  const Idle := RecoveryState(None, 0, false)

  /** What happens to the machine over time. */
  datatype Event =
    | Observed(expected: Option<Digests>, observed: Digests)
    | Acked(revision: u32)
    | Restarted

  function Acknowledge(s: RecoveryState, revision: u32): RecoveryState {
    s.(awaitingPostResync := s.target == Some(revision))
  }

  function ObserveStep(s: RecoveryState, expected: Option<Digests>, observed: Digests): (RecoveryState, Decision) {
    if expected == Some(observed) then (Idle, Matching)
    else if expected.None? || expected.value.revision != observed.revision then (Idle, Stale)
    else if s.target != Some(observed.revision) then (RecoveryState(Some(observed.revision), 1, false), Recover)
    else if s.awaitingPostResync then
      var count := Min(s.mismatchCount + 1, 255);
      (RecoveryState(s.target, count, false), if count >= 2 then Halt else Recover)
    else (s, Recover)
  }

  class AttestationRecovery {
    var targetRevision: Option<u32>
    var mismatchCount: u8
    var awaitingPostResync: bool

    function State(): RecoveryState
      reads this
    {
      RecoveryState(targetRevision, mismatchCount, awaitingPostResync)
    }

    constructor ()
      ensures State() == Idle
    {
      targetRevision, mismatchCount, awaitingPostResync := None, 0, false;
    }

    method Reset()
      modifies this
      ensures State() == Idle
    {
      targetRevision, mismatchCount, awaitingPostResync := None, 0, false;
    }

    method SnapshotAcked(revision: u32)
      modifies this
      ensures State() == Acknowledge(old(State()), revision)
    {
      awaitingPostResync := targetRevision == Some(revision);
    }

    method Observe(expected: Option<Digests>, observed: Digests) returns (decision: Decision)
      modifies this
      ensures (State(), decision) == ObserveStep(old(State()), expected, observed)
    {
      if expected == Some(observed) {
        Reset();
        return Matching;
      }
      if expected.None? || expected.value.revision != observed.revision {
        Reset();
        return Stale;
      }
      if targetRevision != Some(observed.revision) {
        targetRevision, mismatchCount, awaitingPostResync := Some(observed.revision), 1, false;
        return Recover;
      }
      if awaitingPostResync {
        awaitingPostResync := false;
        mismatchCount := Min(mismatchCount + 1, 255);
        if mismatchCount >= 2 {
          return Halt;
        }
      }
      return Recover;
    }
  }

  // ---- Whole runs ----

  function Next(s: RecoveryState, e: Event): RecoveryState {
    match e
    case Observed(expected, observed) => ObserveStep(s, expected, observed).0
    case Acked(r) => Acknowledge(s, r)
    case Restarted => Idle
  }

  function Run(events: seq<Event>): RecoveryState {
    if events == [] then Idle else Next(Run(events[..|events| - 1]), events[|events| - 1])
  }

  /** A digest of the expected revision that differs from the expected one. */
  predicate MismatchAt(e: Event, r: u32) {
    e.Observed? && e.expected.Some? && e.expected != Some(e.observed)
    && e.expected.value.revision == e.observed.revision == r
  }

  predicate Mismatch(e: Event) { e.Observed? && MismatchAt(e, e.observed.revision) }

  /** The revision under recovery, read off the history alone: that of the
      latest observation, if it was a mismatch and nothing restarted since. */
  function TargetOf(events: seq<Event>): Option<u32> {
    if events == [] then None
    else
      var e := events[|events| - 1];
      if e.Acked? then TargetOf(events[..|events| - 1])
      else if Mismatch(e) then Some(e.observed.revision)
      else None
  }

  /** The target has been acknowledged since its latest mismatch, and nothing
      else after it. */
  function Armed(events: seq<Event>): bool {
    events != [] && events[|events| - 1].Acked?
    && TargetOf(events[..|events| - 1]) == Some(events[|events| - 1].revision)
  }

  /** Mismatches that found the machine armed, since the target last changed. */
  function HaltsSince(events: seq<Event>): nat {
    if events == [] then 0
    else
      var init, e := events[..|events| - 1], events[|events| - 1];
      if e.Acked? then HaltsSince(init)
      else if Mismatch(e) && TargetOf(init) == Some(e.observed.revision) then
        HaltsSince(init) + (if Armed(init) then 1 else 0)
      else 0
  }

  /** The machine's whole state, over every run, from the history alone. */
  lemma {:induction false} StateOverRuns(events: seq<Event>)
    ensures Run(events).target == TargetOf(events)
    ensures Run(events).awaitingPostResync == Armed(events)
    ensures Run(events).mismatchCount ==
            if TargetOf(events).None? then 0 else Min(255, 1 + HaltsSince(events))
  {
    if events != [] {
      StateOverRuns(events[..|events| - 1]);
    }
  }

  /** Why there is a target: a mismatch that restarted recovery with `Recover`,
      and since then only acknowledgements and mismatches of that revision. */
  lemma {:induction false} TargetOrigin(events: seq<Event>) returns (i: nat)
    requires TargetOf(events).Some?
    ensures i < |events| && MismatchAt(events[i], TargetOf(events).value)
    ensures ObserveStep(Run(events[..i]), events[i].expected, events[i].observed).1 == Recover
    ensures TargetOf(events[..i]) != TargetOf(events)
    ensures forall k :: i < k < |events| ==> events[k].Acked? || MismatchAt(events[k], TargetOf(events).value)
  {
    var init, e := events[..|events| - 1], events[|events| - 1];
    if TargetOf(init) == TargetOf(events) {
      i := TargetOrigin(init);
      assert events[..i] == init[..i];
    } else {
      i := |events| - 1;
      StateOverRuns(init);
      assert events[..i] == init;
    }
  }

  /** Bounded recovery over every run: a mismatch halts exactly when its
      revision is the target and was acknowledged since the latest mismatch. */
  lemma HaltExactly(events: seq<Event>, expected: Option<Digests>, observed: Digests)
    ensures ObserveStep(Run(events), expected, observed).1 == Halt
            <==> MismatchAt(Observed(expected, observed), observed.revision)
                 && TargetOf(events) == Some(observed.revision) && Armed(events)
  {
    StateOverRuns(events);
  }

  /** So every halt at a revision is preceded by a mismatch there that asked
      for recovery and then by that revision's acknowledgement, with no match,
      stale report, other-revision mismatch or restart in between. */
  lemma HaltNeedsRecoveryAndAck(events: seq<Event>, expected: Option<Digests>, observed: Digests)
    returns (i: nat, j: nat)
    requires ObserveStep(Run(events), expected, observed).1 == Halt
    ensures i < j < |events|
    ensures MismatchAt(events[i], observed.revision)
    ensures ObserveStep(Run(events[..i]), events[i].expected, events[i].observed).1 == Recover
    ensures events[j] == Acked(observed.revision)
    ensures forall k :: i < k < |events| ==> events[k].Acked? || MismatchAt(events[k], observed.revision)
  {
    HaltExactly(events, expected, observed);
    i := TargetOrigin(events);
    j := |events| - 1;
  }

  /** Without an acknowledgement no number of mismatches gets past the first. */
  lemma {:induction false} FirstRoundStays(events: seq<Event>)
    requires forall e :: e in events ==> !e.Acked?
    ensures Run(events).mismatchCount <= 1 && !Run(events).awaitingPostResync
  {
    if events != [] {
      assert events[|events| - 1] in events;
      FirstRoundStays(events[..|events| - 1]);
    }
  }
}

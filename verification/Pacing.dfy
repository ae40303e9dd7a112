/** How fast the central may retry when nothing comes back. */
module Pacing {
  import opened Prelude
  import opened Lighting
  import opened Codec
  import opened Transaction
  import opened Digesting
  import Recovery
  import opened Central

  /** A transfer is queued at this step. */
  predicate Transfers(c: CentralState, e: Event) { c.awaiting.None? && Next(c, e).awaiting.Some? }

  /** The steps that end a series of failures. */
  predicate Settles(c: CentralState, e: Event) {
    e.arm.Link? || (e.arm.Packet? && c.awaiting.Some? && Next(c, e).awaiting.None?)
  }

  /** When the transfers of a run were queued. */
  function TransferTimes(c: CentralState, events: seq<Event>): seq<nat> {
    if events == [] then []
    else
      var init, e := events[..|events| - 1], events[|events| - 1];
      TransferTimes(c, init) + if Transfers(Run(c, init), e) then [e.at] else []
  }

  /** Time never goes back, and neither a link edge nor an acknowledgement of an
      outstanding transfer occurs. */
  predicate Unanswered(c: CentralState, events: seq<Event>) {
    events == [] ||
    var init, e := events[..|events| - 1], events[|events| - 1];
    && Unanswered(c, init)
    && (init != [] ==> init[|init| - 1].at <= e.at)
    && !Settles(Run(c, init), e)
  }

  function LatestTime(events: seq<Event>): nat { if events == [] then 0 else events[|events| - 1].at }

  /** The least time between transfer number `n` (from zero) and the next. */
  function Gap(n: nat): nat {
    if n + 1 >= RESYNC_FAST_ATTEMPTS then ACK_TIMEOUT + RESYNC_IDLE_BACKOFF else ACK_TIMEOUT
  }

  predicate WellSpaced(times: seq<nat>) {
    forall k :: 0 <= k < |times| - 1 ==> times[k + 1] - times[k] >= Gap(k)
  }

  /** The state in terms of the transfers so far. */
  predicate Paced(c: CentralState, times: seq<nat>, now: nat) {
    && WellSpaced(times)
    && c.failedAttempts == Min(|times| - (if c.awaiting.Some? then 1 else 0), 0xffff_ffff)
    && (c.awaiting.Some? ==> times != [] && c.awaiting.value.deadline == times[|times| - 1] + ACK_TIMEOUT)
    && (c.awaiting.None? && times != [] ==>
         var due := times[|times| - 1] + Gap(|times| - 1);
         now >= due || (c.retryAt.Some? && c.retryAt.value >= due))
  }

  lemma SpacedSnoc(times: seq<nat>, at: nat)
    requires WellSpaced(times) && (times != [] ==> at - times[|times| - 1] >= Gap(|times| - 1))
    ensures WellSpaced(times + [at])
  {
    hide Gap;
  }

  lemma SendStaysPaced(c: CentralState, times: seq<nat>, before: nat, e: Event)
    requires Paced(c, times, before) && before <= e.at && e.arm.Send?
    ensures Paced(Next(c, e), times + (if Transfers(c, e) then [e.at] else []), e.at)
  {
    hide ReplicaDigests, Walk, WellSpaced;
    if Transfers(c, e) {
      SpacedSnoc(times, e.at);
    } else {
      assert times + [] == times;
    }
  }

  lemma WaitStaysPaced(c: CentralState, times: seq<nat>, before: nat, e: Event)
    requires Paced(c, times, before) && before <= e.at && !e.arm.Send? && !Settles(c, e)
    ensures !Transfers(c, e) && Paced(Next(c, e), times, e.at)
  {
    hide Recovery.ObserveStep, WellSpaced;
  }

  lemma StepStaysPaced(c: CentralState, times: seq<nat>, before: nat, e: Event)
    requires Paced(c, times, before) && before <= e.at && !Settles(c, e)
    ensures Paced(Next(c, e), times + (if Transfers(c, e) then [e.at] else []), e.at)
  {
    hide Paced, Next, Settles, Transfers;
    if e.arm.Send? {
      SendStaysPaced(c, times, before, e);
    } else {
      WaitStaysPaced(c, times, before, e);
      assert times + [] == times;
    }
  }

  lemma {:induction false} RunIsPaced(c: CentralState, events: seq<Event>)
    requires c.failedAttempts == 0 && c.awaiting.None? && Unanswered(c, events)
    ensures Paced(Run(c, events), TransferTimes(c, events), LatestTime(events))
  {
    if events != [] {
      var init, e := events[..|events| - 1], events[|events| - 1];
      RunIsPaced(c, init);
      hide Paced, Transfers, Settles, Next;
      StepStaysPaced(Run(c, init), TransferTimes(c, init), LatestTime(init), e);
    }
  }

  /** Retry pacing, over every timed run that starts with no failures counted:
      while nothing is acknowledged and the link has no edge, transfers are at
      least the acknowledgement timeout apart, and from the fifth failure on at
      least that plus the idle back-off, whatever events arrive and however
      often the queue refuses. */
  lemma RetryPacing(c: CentralState, events: seq<Event>)
    requires c.failedAttempts == 0 && c.awaiting.None? && Unanswered(c, events)
    ensures var times := TransferTimes(c, events);
            forall k :: 0 <= k < |times| - 1 ==>
              times[k + 1] >= times[k] + (if k < 4 then 500 else 20500)
  {
    hide Unanswered, TransferTimes, Run;
    RunIsPaced(c, events);
  }

  /** And no slower than that: a transfer that timed out is offered again at once
      before the fifth failure, and 20 s later from then on. */
  lemma RetriesInTime(c: CentralState, s: Snapshot, timer: nat, at: nat)
    requires Sound(c) && c.awaiting.Some? && c.awaiting.value.deadline <= timer <= at
    ensures var d := Next(c, Event(timer, Timer));
            && d.awaiting.None? && d.fullDirty && d.failedAttempts == Min(c.failedAttempts + 1, 0xffff_ffff)
            && (Next(d, Event(at, Send(Some(s), true))).awaiting.Some?
                <==> c.failedAttempts < 4 || at >= timer + 20000)
  {
    hide ReplicaDigests, Walk;
  }

  /** Such a run may start at the beginning, or after anything that settles. */
  lemma SettlingRestarts(c: CentralState, e: Event)
    requires Settles(c, e)
    ensures Next(c, e).failedAttempts == 0 && Next(c, e).awaiting.None?
  {
    hide Recovery.ObserveStep;
  }

  // ---- After a refusal ----

  /** An offer is made at this step. */
  predicate Offers(c: CentralState, e: Event) { e.arm.Send? && WantsToSend(Refreshed(c, e.at)) }

  /** The back-off that started at `since` is still on, or over by now. */
  predicate BackingOff(c: CentralState, since: nat, now: nat) {
    now >= since + SEND_BACKOFF || (c.awaiting.None? && c.retryAt == Some(since + SEND_BACKOFF))
  }

  predicate Steady(events: seq<Event>, since: nat) {
    events == [] ||
    var init, e := events[..|events| - 1], events[|events| - 1];
    Steady(init, since) && !e.arm.Link? && since <= e.at && (init != [] ==> init[|init| - 1].at <= e.at)
  }

  lemma StaysBackedOff(c: CentralState, since: nat, before: nat, e: Event)
    requires BackingOff(c, since, before) && before <= e.at && !e.arm.Link?
    ensures BackingOff(Next(c, e), since, e.at)
    ensures Offers(c, e) ==> e.at >= since + SEND_BACKOFF
  {
    hide ReplicaDigests, Walk, Recovery.ObserveStep;
  }

  lemma {:induction false} RunBacksOff(c: CentralState, since: nat, events: seq<Event>)
    requires BackingOff(c, since, since) && Steady(events, since)
    ensures BackingOff(Run(c, events), since, if events == [] then since else LatestTime(events))
  {
    if events != [] {
      var init, e := events[..|events| - 1], events[|events| - 1];
      RunBacksOff(c, since, init);
      hide BackingOff, Offers, Next;
      StaysBackedOff(Run(c, init), since, if init == [] then since else LatestTime(init), e);
    }
  }

  /** A refused offer is not repeated for the send back-off, whatever happens
      short of a link edge. */
  lemma RefusalBacksOff(c: CentralState, refused: Event, events: seq<Event>, next: Event)
    requires Offers(c, refused) && (refused.arm.exported.None? || !refused.arm.accepted)
    requires Steady(events + [next], refused.at) && Offers(Run(Next(c, refused), events), next)
    ensures next.at >= refused.at + SEND_BACKOFF
  {
    var d := Next(c, refused);
    assert (events + [next])[..|events|] == events;
    assert BackingOff(d, refused.at, refused.at) by { hide ReplicaDigests, Walk; }
    hide Next, Offers, BackingOff;
    RunBacksOff(d, refused.at, events);
    StaysBackedOff(Run(d, events), refused.at, if events == [] then refused.at else LatestTime(events), next);
  }
}

/**
 * No wakeup is lost, and the wait loop of a flush ends: src/sparkplug/delivery.rs:125-154 and
 * 195-207. Nothing here assumes honest PubAcks or uncancelled calls; only the count must not wrap.
 */
module Wakeups {
  import opened Prelude
  import opened DeliveryProtocol

  predicate NoWrap(s: System, e: Event) {
    e.CountPublish? ==> s.tracker.unacked < U32 - 1
  }

  ghost predicate NoWrapRun(s: System, events: seq<Event>): (r: bool)
    ensures r ==> ValidRun(s, events)
    decreases |events|
  {
    events == [] || (Enabled(s, events[0]) && NoWrap(s, events[0]) && NoWrapRun(Next(s, events[0]), events[1..]))
  }

  /**
   * A flush parked unnotified while nothing is outstanding is about to be notified: some task stands
   * between its unlock and its `notify_waiters`.
   */
  predicate NoLostWakeup(s: System) {
    s.tracker.unacked == 0 && s.notifies == 0 ==>
      forall f | 0 <= f < |s.flushes| :: s.flushes[f].stage != Parked(false)
  }

  lemma WakeupStep(s: System, e: Event)
    requires NoLostWakeup(s) && Enabled(s, e) && NoWrap(s, e)
    ensures NoLostWakeup(Next(s, e))
  {
  }

  lemma {:induction false} WakeupFrom(s: System, events: seq<Event>)
    requires NoLostWakeup(s) && NoWrapRun(s, events)
    ensures NoLostWakeup(After(s, events))
    decreases |events|
  {
    if events == [] {
    } else {
      WakeupStep(s, events[0]);
      WakeupFrom(Next(s, events[0]), events[1..]);
    }
  }

  /** In every reachable state. */
  lemma NoWakeupIsEverLost(events: seq<Event>)
    requires NoWrapRun(INIT, events)
    ensures NoLostWakeup(After(INIT, events))
  {
    WakeupFrom(INIT, events);
  }

  /**
   * A notification reaches every waiter created before it, checked or not, and no other flush; a
   * check that does not drain keeps it, and only a notified waiter wakes.
   */
  lemma NotificationsReachEveryWaiter(s: System, f: nat)
    requires f < |s.flushes|
    ensures
      var stage := s.flushes[f].stage;
      && (s.notifies > 0 ==>
            Next(s, Notify).flushes[f].stage ==
            if stage.Registered? then Registered(true) else if stage.Parked? then Parked(true) else stage)
      && (stage.Registered? && s.tracker.unacked > 0 ==> Next(s, Check(f)).flushes[f].stage == Parked(stage.notified))
      && (Enabled(s, Wake(f)) <==> stage == Parked(true))
  {
  }

  /** The same holds on every honest run, where the sizes fit. */
  lemma {:induction false} HonestRunDoesNotWrap(s: System, events: seq<Event>)
    requires HonestInv(s) && Fits(s) && HonestRun(s, events)
    ensures NoWrapRun(s, events)
    decreases |events|
  {
    if events == [] {
    } else {
      if events[0].CountPublish? {
        SumAppend(IsKind(KOutstanding), s.pubs, Next(s, events[0]).pubs[|s.pubs|]);
        SumAppend(IsKind(KLost), s.pubs, Next(s, events[0]).pubs[|s.pubs|]);
      }
      HonestStep(s, events[0]);
      HonestRunDoesNotWrap(Next(s, events[0]), events[1..]);
    }
  }

  /** While nothing is outstanding an active flush can always go on, with no timeout to help it. */
  lemma DrainedFlushGoesOn(s: System, f: nat) returns (e: Event)
    requires NoLostWakeup(s) && s.tracker.unacked == 0
    requires f < |s.flushes| && s.flushes[f].stage.Active()
    ensures Enabled(s, e) && (e == Notify || e == Register(f) || e == Check(f) || e == Wake(f) || e == Report(f))
  {
    match s.flushes[f].stage
    case Looping => e := Register(f);
    case Registered(_) => e := Check(f);
    case Parked(notified) => e := if notified then Wake(f) else Notify;
    case Drained => e := Report(f);
  }

  // -- the measure of the loop -------------------------------------------------

  predicate Internal(e: Event) {
    e.Notify? || e.Register? || e.Check? || e.Wake? || e.Report? || e.Timeout? || e.Abandon?
  }

  function Rank(stage: Stage): nat {
    match stage
    case Registered(notified) => if notified then 5 else 2
    case Parked(notified) => if notified then 4 else 1
    case Looping => 3
    case Drained => 1
    case _ => 0
  }

  function RankOf(flush: Flush): nat {
    Rank(flush.stage)
  }

  function RankSum(flushes: seq<Flush>): nat {
    Sum(RankOf, flushes)
  }

  /** One notification can put every flush at most three places back. */
  function Weight(flushes: nat): nat {
    3 * flushes + 1
  }

  function Potential(s: System): nat {
    s.notifies * Weight(|s.flushes|) + RankSum(s.flushes)
  }

  lemma {:induction false} RankNotify(flushes: seq<Flush>)
    ensures RankSum(NotifyAll(flushes)) <= RankSum(flushes) + 3 * |flushes|
  {
    if flushes == [] {
    } else {
      assert NotifyAll(flushes)[..|flushes| - 1] == NotifyAll(flushes[..|flushes| - 1]);
      RankNotify(flushes[..|flushes| - 1]);
    }
  }

  lemma PotentialStep(s: System, e: Event)
    requires Enabled(s, e) && !e.OpenFlush?
    ensures |Next(s, e).flushes| == |s.flushes|
    ensures Internal(e) ==> Potential(Next(s, e)) < Potential(s)
    ensures !Internal(e) ==> Potential(Next(s, e)) <= Potential(s) + Weight(|s.flushes|)
  {
    var w := Weight(|s.flushes|);
    if e.Notify? {
      RankNotify(s.flushes);
      assert (s.notifies - 1) * w == s.notifies * w - w;
    } else if Internal(e) {
      RankFalls(s, e);
    } else {
      assert Next(s, e).flushes == s.flushes && Next(s, e).notifies <= s.notifies + 1;
      assert (s.notifies + 1) * w == s.notifies * w + w;
    }
  }

  lemma RankFalls(s: System, e: Event)
    requires Enabled(s, e) && Internal(e) && !e.Notify?
    ensures |Next(s, e).flushes| == |s.flushes| && Next(s, e).notifies == s.notifies
    ensures RankSum(Next(s, e).flushes) < RankSum(s.flushes)
  {
    SumUpdate(RankOf, s.flushes, e.flush, Next(s, e).flushes[e.flush]);
  }

  function InternalCount(events: seq<Event>): nat {
    if events == [] then 0 else (if Internal(events[0]) then 1 else 0) + InternalCount(events[1..])
  }

  /**
   * With no new flush, the steps the flushes and notifications can take are bounded by what stands
   * now plus a fixed weight for each tracker event still to come.
   */
  lemma {:induction false} WaitLoopEnds(s: System, events: seq<Event>)
    requires ValidRun(s, events)
    requires forall i | 0 <= i < |events| :: !events[i].OpenFlush?
    ensures InternalCount(events) <= |events|
    ensures InternalCount(events) <= Potential(s) + (|events| - InternalCount(events)) * Weight(|s.flushes|)
    decreases |events|
  {
    if events == [] {
    } else {
      PotentialStep(s, events[0]);
      WaitLoopEnds(Next(s, events[0]), events[1..]);
      var n := |events| - 1 - InternalCount(events[1..]);
      var w := Weight(|s.flushes|);
      assert (n + 1) * w == n * w + w;
    }
  }

  lemma {:induction false} InternalKeepsTheCount(s: System, events: seq<Event>)
    requires ValidRun(s, events) && NoLostWakeup(s)
    requires forall i | 0 <= i < |events| :: Internal(events[i])
    ensures After(s, events).tracker.unacked == s.tracker.unacked && NoLostWakeup(After(s, events))
    ensures InternalCount(events) == |events|
    decreases |events|
  {
    if events == [] {
    } else {
      WakeupStep(s, events[0]);
      InternalKeepsTheCount(Next(s, events[0]), events[1..]);
    }
  }

  /**
   * Once nothing is outstanding and nothing new comes, the flushes take a bounded number of steps,
   * and when none of them can go on every flush has ended, timeouts or not.
   */
  lemma DrainedFlushesAllEnd(s: System, events: seq<Event>)
    requires NoLostWakeup(s) && s.tracker.unacked == 0
    requires ValidRun(s, events) && forall i | 0 <= i < |events| :: Internal(events[i])
    ensures |events| <= Potential(s)
    ensures
      var end := After(s, events);
      (forall e | Internal(e) && !e.Timeout? && !e.Abandon? :: !Enabled(end, e)) ==>
      forall f | 0 <= f < |end.flushes| :: !end.flushes[f].stage.Active()
  {
    InternalKeepsTheCount(s, events);
    WaitLoopEnds(s, events);
    var end := After(s, events);
    forall f | 0 <= f < |end.flushes| && end.flushes[f].stage.Active()
      ensures exists e :: Internal(e) && !e.Timeout? && !e.Abandon? && Enabled(end, e)
    {
      var e := DrainedFlushGoesOn(end, f);
      assert Internal(e);
    }
  }
}

/**
 * Runs of the tracker, event by event. One honest run loses a message and tells of it; the others
 * keep every assumption but one, or every one but the bound on the counts, and end with a flush
 * that returned Ok over an outstanding publish.
 */
module DeliveryRuns {
  import opened Prelude
  import opened Types
  import opened Delivery
  import opened DeliveryProtocol

  // A publish as the runs below leave it.
  const WAITING := Pub(Ticket(0), Outstanding, true, Offered)
  const IN_HAND := Pub(Ticket(0), Outstanding, true, Held)
  const AFTER_THE_LOSS := Pub(Ticket(1), Outstanding, true, Offered)

  // -- why each assumption is there --------------------------------------------

  /** Some flush returned Ok over a publish that was counted before it opened and is outstanding. */
  predicate FlushLied(s: System) {
    exists f, p :: 0 <= f < |s.flushes| && 0 <= p < s.flushes[f].seen && p < |s.pubs|
      && s.flushes[f].stage == Answered(Success(()), 0) && s.pubs[p].fate.Outstanding?
  }

  /** Whose assumption a run is allowed to break, if any. */
  datatype Assumption = OfTheBroker | OfTheCaller | OfTheTracker | OfNobody

  /** A run on which every assumption holds but, at most, the one. */
  ghost predicate RunBut(without: Assumption, s: System, events: seq<Event>): (r: bool)
    ensures r ==> ValidRun(s, events)
    decreases |events|
  {
    events == [] ||
    (&& Enabled(s, events[0]) && MeetsBut(without, s, events[0])
     && RunBut(without, Next(s, events[0]), events[1..]))
  }

  predicate MeetsBut(without: Assumption, s: System, e: Event) {
    && (!without.OfTheBroker? ==> Conforms(s, e))
    && (!without.OfTheCaller? ==> UncancelledOnceTaken(s, e))
    && (!without.OfTheTracker? ==> LostStaysLost(s, e))
  }

  lemma {:induction false} RunOneMore(a: Assumption, s: System, events: seq<Event>, e: Event)
    requires RunBut(a, s, events) && Enabled(After(s, events), e) && MeetsBut(a, After(s, events), e)
    ensures RunBut(a, s, events + [e]) && After(s, events + [e]) == Next(After(s, events), e)
    decreases |events|
  {
    if events == [] {
      assert ([] + [e])[1..] == [];
      assert RunBut(a, Next(s, e), [e][1..]);
    } else {
      assert (events + [e])[1..] == events[1..] + [e];
      RunOneMore(a, Next(s, events[0]), events[1..], e);
    }
  }

  /** Take the next step of a run towards a state written out by hand. */
  lemma Onward(a: Assumption, events: seq<Event>, s: System, e: Event, s': System) returns (events': seq<Event>)
    requires RunBut(a, INIT, events) && After(INIT, events) == s
    requires Enabled(s, e) && MeetsBut(a, s, e) && Next(s, e) == s'
    ensures events' == events + [e] && RunBut(a, INIT, events') && After(INIT, events') == s'
  {
    events' := events + [e];
    RunOneMore(a, INIT, events, e);
  }

  /** With the count at 0 a flush opens and drains at once. */
  lemma OpenAndDrain(a: Assumption, events: seq<Event>, s: System) returns (events': seq<Event>)
    requires RunBut(a, INIT, events) && After(INIT, events) == s && s.tracker.unacked == 0
    ensures events' == events + [OpenFlush] + [Register(|s.flushes|)] + [Check(|s.flushes|)]
    ensures RunBut(a, INIT, events')
    ensures After(INIT, events') ==
            s.(flushes := s.flushes + [Flush(s.tracker.reported, |s.pubs|, s.debt.told, Drained)])
  {
    var f := |s.flushes|;
    var s1 := s.(flushes := s.flushes + [Flush(s.tracker.reported, |s.pubs|, s.debt.told, Looping)]);
    var s2 := s.(flushes := s.flushes + [Flush(s.tracker.reported, |s.pubs|, s.debt.told, Registered(false))]);
    var s3 := s.(flushes := s.flushes + [Flush(s.tracker.reported, |s.pubs|, s.debt.told, Drained)]);
    events' := Onward(a, events, s, OpenFlush, s1);
    events' := Onward(a, events', s1, Register(f), s2);
    events' := Onward(a, events', s2, Check(f), s3);
  }

  /** And with nothing to report it answers Ok, whatever is outstanding. */
  lemma FlushOnce(a: Assumption, events: seq<Event>, s: System, p: nat) returns (events': seq<Event>)
    requires RunBut(a, INIT, events) && After(INIT, events) == s
    requires s.tracker.unacked == 0 && s.tracker.lost == 0
    requires p < |s.pubs| && s.pubs[p].fate.Outstanding?
    ensures
      var f := |s.flushes|;
      events' == events + [OpenFlush] + [Register(f)] + [Check(f)] + [Report(f)]
    ensures RunBut(a, INIT, events') && FlushLied(After(INIT, events'))
  {
    var f := |s.flushes|;
    var s3 := s.(flushes := s.flushes + [Flush(s.tracker.reported, |s.pubs|, s.debt.told, Drained)]);
    events' := OpenAndDrain(a, events, s);
    events' := Onward(a, events', s3, Report(f), Next(s3, Report(f)));
    ReportNothing(s3, f, p);
  }

  lemma ReportNothing(s: System, f: nat, p: nat)
    requires Enabled(s, Report(f)) && s.flushes[f].openedAt == s.tracker.reported && s.tracker.lost == 0
    requires p < |s.pubs| && p < s.flushes[f].seen && s.pubs[p].fate.Outstanding?
    ensures FlushLied(Next(s, Report(f)))
  {
    var s' := Next(s, Report(f));
    assert s'.flushes[f].stage == Answered(Success(()), 0) && s'.pubs[p] == s.pubs[p];
  }

  lemma CountAndTake(a: Assumption) returns (events: seq<Event>)
    ensures events == [CountPublish] + [TakePublish(0)]
    ensures RunBut(a, INIT, events) && After(INIT, events) == System(Tracker(1, 0, 0, 0), [IN_HAND], [], 0, 0, NO_DEBT)
  {
    var s1 := System(Tracker(1, 0, 0, 0), [WAITING], [], 0, 0, NO_DEBT);
    events := Onward(a, [], INIT, CountPublish, s1);
    events := Onward(a, events, s1, TakePublish(0), s1.(pubs := [IN_HAND]));
  }

  lemma CancelAfterTheTake(events: seq<Event>) returns (events': seq<Event>)
    requires RunBut(OfTheCaller, INIT, events)
    requires After(INIT, events) == System(Tracker(1, 0, 0, 0), [IN_HAND], [], 0, 0, NO_DEBT)
    ensures events' == events + [DropGuard(0)] + [CountPublish] + [PubAck(0)]
    ensures RunBut(OfTheCaller, INIT, events')
    ensures After(INIT, events') == System(
      FRESH, [Pub(Ticket(0), RolledBack, false, Confirmed), WAITING], [], 2, 0, Debt(1, 0, 0))
  {
    var cancelled := Pub(Ticket(0), RolledBack, false, Held);
    var s2 := System(Tracker(1, 0, 0, 0), [IN_HAND], [], 0, 0, NO_DEBT);
    var s3 := System(FRESH, [cancelled], [], 1, 0, NO_DEBT);
    var s4 := System(Tracker(1, 0, 0, 0), [cancelled, WAITING], [], 1, 0, NO_DEBT);
    var s5 := System(FRESH, [cancelled.(custody := Confirmed), WAITING], [], 2, 0, Debt(1, 0, 0));
    events' := Onward(OfTheCaller, events, s2, DropGuard(0), s3);
    events' := Onward(OfTheCaller, events', s3, CountPublish, s4);
    events' := Onward(OfTheCaller, events', s4, PubAck(0), s5);
  }

  /**
   * A call cancelled after the client took its message: its PubAck clears the count of another
   * publish, and a flush returns Ok while that one is outstanding.
   */
  lemma TakenThenCancelledBreaksFlush() returns (events: seq<Event>)
    ensures events == [CountPublish] + [TakePublish(0)] + [DropGuard(0)] + [CountPublish] + [PubAck(0)]
                    + [OpenFlush] + [Register(0)] + [Check(0)] + [Report(0)]
    ensures RunBut(OfTheCaller, INIT, events) && FlushLied(After(INIT, events))
  {
    events := CountAndTake(OfTheCaller);
    events := CancelAfterTheTake(events);
    events := FlushOnce(OfTheCaller, events, After(INIT, events), 1);
  }

  /** A broker that acknowledges one message twice clears two counts with it. */
  lemma SecondAckBreaksFlush() returns (events: seq<Event>)
    ensures events == [CountPublish] + [TakePublish(0)] + [CountPublish] + [PubAck(0)] + [PubAck(0)]
                    + [OpenFlush] + [Register(0)] + [Check(0)] + [Report(0)]
    ensures RunBut(OfTheBroker, INIT, events) && FlushLied(After(INIT, events))
  {
    var acked := Pub(Ticket(0), Acked, true, Confirmed);
    var s2 := System(Tracker(1, 0, 0, 0), [IN_HAND], [], 0, 0, NO_DEBT);
    var s3 := System(Tracker(2, 0, 0, 0), [IN_HAND, WAITING], [], 0, 0, NO_DEBT);
    var s4 := System(Tracker(1, 0, 0, 0), [acked, WAITING], [], 1, 0, NO_DEBT);
    var s5 := System(FRESH, [acked, WAITING], [], 2, 0, Debt(1, 0, 0));
    events := CountAndTake(OfTheBroker);
    events := Onward(OfTheBroker, events, s2, CountPublish, s3);
    events := Onward(OfTheBroker, events, s3, PubAck(0), s4);
    events := Onward(OfTheBroker, events, s4, PubAck(0), s5);
    events := FlushOnce(OfTheBroker, events, s5, 1);
  }

  /** What both runs below come to: the one loss told by a flush, the client holding the message. */
  function LostAndTold(guarded: bool): System {
    System(
      Tracker(0, 0, 1, 1),
      [Pub(Ticket(0), Fate.Reported(0, 1), guarded, Held)],
      [Flush(0, 1, 0, Answered(Failure(PublishLost(1)), 1))], 1, 1, NO_DEBT)
  }

  /**
   * The acknowledgement of the message recorded as lost clears the count of the next publish, whose
   * call has returned Ok.
   */
  lemma AckOfALostMessage(events: seq<Event>, guarded: bool) returns (events': seq<Event>)
    requires RunBut(OfTheTracker, INIT, events) && After(INIT, events) == LostAndTold(guarded)
    ensures events' == events + [CountPublish] + [TakePublish(1)] + [KeepGuard(1)] + [PubAck(0)]
                     + [OpenFlush] + [Register(1)] + [Check(1)] + [Report(1)]
    ensures RunBut(OfTheTracker, INIT, events') && FlushLied(After(INIT, events'))
  {
    var s := LostAndTold(guarded);
    var lost := s.pubs[0];
    var s1 := s.(tracker := Tracker(1, 0, 1, 1), pubs := [lost, AFTER_THE_LOSS]);
    var s2 := s1.(pubs := [lost, AFTER_THE_LOSS.(custody := Held)]);
    var s3 := s1.(pubs := [lost, AFTER_THE_LOSS.(custody := Held, guarded := false)]);
    events' := Onward(OfTheTracker, events, s, CountPublish, s1);
    events' := Onward(OfTheTracker, events', s1, TakePublish(1), s2);
    events' := Onward(OfTheTracker, events', s2, KeepGuard(1), s3);
    events' := AckTheLost(events', s3);
  }

  lemma AckTheLost(events: seq<Event>, s: System) returns (events': seq<Event>)
    requires RunBut(OfTheTracker, INIT, events) && After(INIT, events) == s
    requires |s.pubs| == 2 && s.pubs[0].custody.Held? && s.pubs[0].fate.Reported? && s.pubs[1].fate.Outstanding?
    requires s.tracker.unacked == 1 && s.tracker.lost == 0
    ensures
      var f := |s.flushes|;
      events' == events + [PubAck(0)] + [OpenFlush] + [Register(f)] + [Check(f)] + [Report(f)]
    ensures RunBut(OfTheTracker, INIT, events') && FlushLied(After(INIT, events'))
  {
    var s' := Next(s, PubAck(0));
    events' := Onward(OfTheTracker, events, s, PubAck(0), s');
    events' := FlushOnce(OfTheTracker, events', s', 1);
  }

  /** A disconnect takes the one publish out of the count, and a flush reports it. */
  lemma LoseAndTell(a: Assumption, events: seq<Event>, pub: Pub) returns (events': seq<Event>)
    requires pub.fate.Outstanding?
    requires RunBut(a, INIT, events)
    requires After(INIT, events) == System(Tracker(1, 0, 0, 0), [pub], [], 0, 0, NO_DEBT)
    ensures events' == events + [Disconnect] + [OpenFlush] + [Register(0)] + [Check(0)] + [Report(0)]
    ensures RunBut(a, INIT, events')
    ensures After(INIT, events') == LostAndTold(true).(pubs := [pub.(fate := Fate.Reported(0, 1))])
  {
    var s := System(Tracker(0, 1, 0, 1), [pub.(fate := Lost)], [], 1, 1, NO_DEBT);
    var s3 := s.(flushes := [Flush(0, 1, 0, Drained)]);
    var s4 := LostAndTold(true).(pubs := [pub.(fate := Fate.Reported(0, 1))]);
    events' := Onward(a, events, After(INIT, events), Disconnect, s);
    events' := OpenAndDrain(a, events', s);
    events' := Onward(a, events', s3, Report(0), s4);
  }

  /**
   * A message the client still holds at a recorded disconnect, and does not drop: the loss is
   * reported, the message arrives all the same, and its PubAck makes a later flush pass over another.
   */
  lemma HeldAcrossADisconnectBreaksFlush() returns (events: seq<Event>)
    ensures events == [CountPublish] + [TakePublish(0)] + [Disconnect]
                    + [OpenFlush] + [Register(0)] + [Check(0)] + [Report(0)]
                    + [CountPublish] + [TakePublish(1)] + [KeepGuard(1)] + [PubAck(0)]
                    + [OpenFlush] + [Register(1)] + [Check(1)] + [Report(1)]
    ensures RunBut(OfTheTracker, INIT, events) && FlushLied(After(INIT, events))
  {
    events := CountAndTake(OfTheTracker);
    events := LoseAndTell(OfTheTracker, events, IN_HAND);
    events := AckOfALostMessage(events, true);
  }

  /**
   * A publish counted before a disconnect and taken after it. Nothing is cancelled and the broker
   * does what QoS 1 asks, in the new session alone; the loss was reported, the call returned Ok, and
   * the PubAck makes a later flush pass over another publish, which is outstanding.
   */
  lemma TakenAfterADisconnectBreaksFlush() returns (events: seq<Event>)
    ensures events == [CountPublish] + [Disconnect] + [OpenFlush] + [Register(0)] + [Check(0)] + [Report(0)]
                    + [TakePublish(0)] + [KeepGuard(0)]
                    + [CountPublish] + [TakePublish(1)] + [KeepGuard(1)] + [PubAck(0)]
                    + [OpenFlush] + [Register(1)] + [Check(1)] + [Report(1)]
    ensures RunBut(OfTheTracker, INIT, events) && FlushLied(After(INIT, events))
  {
    events := TakenAfterTheLoss();
    events := AckOfALostMessage(events, false);
  }

  lemma TakenAfterTheLoss() returns (events: seq<Event>)
    ensures events == [CountPublish] + [Disconnect] + [OpenFlush] + [Register(0)] + [Check(0)] + [Report(0)]
                    + [TakePublish(0)] + [KeepGuard(0)]
    ensures RunBut(OfTheTracker, INIT, events) && After(INIT, events) == LostAndTold(false)
  {
    events := Onward(OfTheTracker, [], INIT, CountPublish, System(Tracker(1, 0, 0, 0), [WAITING], [], 0, 0, NO_DEBT));
    events := LoseAndTell(OfTheTracker, events, WAITING);
    events := TakeAndKeep(events);
  }

  lemma TakeAndKeep(events: seq<Event>) returns (events': seq<Event>)
    requires RunBut(OfTheTracker, INIT, events)
    requires After(INIT, events) == LostAndTold(true).(pubs := [WAITING.(fate := Fate.Reported(0, 1))])
    ensures events' == events + [TakePublish(0)] + [KeepGuard(0)]
    ensures RunBut(OfTheTracker, INIT, events') && After(INIT, events') == LostAndTold(false)
  {
    events' := Onward(OfTheTracker, events, After(INIT, events), TakePublish(0), LostAndTold(true));
    events' := Onward(OfTheTracker, events', LostAndTold(true), KeepGuard(0), LostAndTold(false));
  }

  /** `n` publishes counted and nothing else. */
  function Flood(n: nat): System
    requires n <= U32
  {
    System(Tracker(n % U32, 0, 0, 0), seq(n, _ => WAITING), [], 0, 0, Debt(if n == U32 then U32 else 0, 0, 0))
  }

  lemma {:induction false} FloodRun(a: Assumption, n: nat) returns (events: seq<Event>)
    requires n <= U32
    ensures |events| == n && forall i | 0 <= i < n :: events[i] == CountPublish
    ensures RunBut(a, INIT, events) && After(INIT, events) == Flood(n)
  {
    if n == 0 {
      events := [];
    } else {
      events := FloodRun(a, n - 1);
      assert Flood(n).pubs == Flood(n - 1).pubs + [WAITING];
      events := Onward(a, events, Flood(n - 1), CountPublish, Flood(n));
    }
  }

  /** 2^32 publishes in flight: the count reads 0, and a flush returns Ok over every one of them. */
  lemma OverflowBreaksFlush(a: Assumption) returns (events: seq<Event>)
    ensures |events| == U32 + 4 && forall i | 0 <= i < U32 :: events[i] == CountPublish
    ensures RunBut(a, INIT, events) && FlushLied(After(INIT, events))
  {
    events := FloodRun(a, U32);
    events := FlushOnce(a, events, Flood(U32), 0);
  }

  // -- an honest loss ----------------------------------------------------------

  /** A run of fewer than 2^32 events cannot outgrow the counts. */
  lemma {:induction false} ShortRunFits(s: System, events: seq<Event>)
    requires RunBut(OfNobody, s, events)
    requires |s.pubs| + |events| < U32 && s.disconnects + |events| < U64
    ensures HonestRun(s, events)
    decreases |events|
  {
    if events == [] {
    } else {
      var s' := Next(s, events[0]);
      GrowsByOne(s, events[0]);
      TallySum(s'.pubs);
      ShortRunFits(s', events[1..]);
    }
  }

  lemma GrowsByOne(s: System, e: Event)
    requires Enabled(s, e)
    ensures |Next(s, e).pubs| <= |s.pubs| + 1 && Next(s, e).disconnects <= s.disconnects + 1
  {
  }

  /**
   * The loss the tracker is for. The call returned Ok, the client holds the message, and the poll
   * error comes: the disconnect is recorded at once and a flush tells of the loss, while the client
   * drops the message only when it connects again. The run is honest throughout.
   */
  lemma HonestLossIsTold() returns (events: seq<Event>)
    ensures events == [CountPublish] + [TakePublish(0)] + [KeepGuard(0)] + [Disconnect]
                    + [OpenFlush] + [Register(0)] + [Check(0)] + [Report(0)] + [DiscardSession]
    ensures HonestRun(INIT, events)
    ensures
      var s := After(INIT, events);
      && s.pubs == [Pub(Ticket(0), Fate.Reported(0, 1), false, Discarded)]
      && s.flushes == [Flush(0, 1, 0, Answered(Failure(PublishLost(1)), 1))]
  {
    events := LossIsTold();
    ShortRunFits(INIT, events);
  }

  lemma LossIsTold() returns (events: seq<Event>)
    ensures events == [CountPublish] + [TakePublish(0)] + [KeepGuard(0)] + [Disconnect]
                    + [OpenFlush] + [Register(0)] + [Check(0)] + [Report(0)] + [DiscardSession]
    ensures RunBut(OfNobody, INIT, events)
    ensures After(INIT, events) ==
            LostAndTold(true).(pubs := [Pub(Ticket(0), Fate.Reported(0, 1), false, Discarded)])
  {
    var sent := IN_HAND.(guarded := false);
    var told := LostAndTold(true).(pubs := [sent.(fate := Fate.Reported(0, 1))]);
    var gone := told.(pubs := [sent.(fate := Fate.Reported(0, 1), custody := Discarded)]);
    events := CountAndTake(OfNobody);
    events := Onward(OfNobody, events, After(INIT, events), KeepGuard(0), After(INIT, events).(pubs := [sent]));
    events := LoseAndTell(OfNobody, events, sent);
    events := Onward(OfNobody, events, told, DiscardSession, gone);
  }
}

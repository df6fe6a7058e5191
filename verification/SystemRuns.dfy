/**
 * Runs of the whole client, event by event, for any publisher and any edge node: a call that
 * returns Ok, is acknowledged and confirmed by a flush; a call the client refuses; and a call that is
 * cancelled while it waits for the client.
 */
module SystemRuns {
  import opened Prelude
  import opened Ids
  import opened SeqSpec
  import opened PublishSystem
  import opened Delivery
  import SP = SeqProtocol
  import DP = DeliveryProtocol
  import ST = SeqTheorems

  /** A run whose every event is honest, its size aside. */
  ghost predicate PlainRun(config: SP.Config, s: System, events: seq<Event>): (r: bool)
    ensures r ==> ValidRun(config, s, events)
    decreases |events|
  {
    events == [] ||
    (&& Enabled(config, s, events[0]) && HonestEvent(config, s, events[0])
     && PlainRun(config, Next(config, s, events[0]), events[1..]))
  }

  predicate HonestEvent(config: SP.Config, s: System, e: Event) {
    TrackerPart(config, s, e).Some? ==> DP.Honest(s.delivery, TrackerPart(config, s, e).value)
  }

  /** A run of fewer than 2^32 events cannot outgrow the counts. */
  lemma {:induction false} ShortRunIsHonest(config: SP.Config, s: System, events: seq<Event>)
    requires PlainRun(config, s, events)
    requires |s.delivery.pubs| + |events| < U32 && s.delivery.disconnects + |events| < U64
    ensures HonestRun(config, s, events)
    decreases |events|
  {
    if events == [] {
    } else {
      var s' := Next(config, s, events[0]);
      GrowsByOne(config, s, events[0]);
      DP.TallySum(s'.delivery.pubs);
      ShortRunIsHonest(config, s', events[1..]);
    }
  }

  lemma GrowsByOne(config: SP.Config, s: System, e: Event)
    requires Enabled(config, s, e)
    ensures
      var d, d' := s.delivery, Next(config, s, e).delivery;
      |d'.pubs| <= |d.pubs| + 1 && d'.disconnects <= d.disconnects + 1
  {
  }

  lemma {:induction false} RunOneMore(config: SP.Config, s: System, events: seq<Event>, e: Event)
    requires PlainRun(config, s, events)
    requires Enabled(config, After(config, s, events), e) && HonestEvent(config, After(config, s, events), e)
    ensures PlainRun(config, s, events + [e])
    ensures After(config, s, events + [e]) == Next(config, After(config, s, events), e)
    decreases |events|
  {
    if events == [] {
      assert ([] + [e])[1..] == [];
      assert PlainRun(config, Next(config, s, e), [e][1..]);
    } else {
      assert (events + [e])[1..] == events[1..] + [e];
      RunOneMore(config, Next(config, s, events[0]), events[1..], e);
    }
  }

  /** One honest event takes one state, written out by hand, to the next. */
  predicate Leads(config: SP.Config, s: System, e: Event, s': System) {
    Enabled(config, s, e) && HonestEvent(config, s, e) && Next(config, s, e) == s'
  }

  lemma Onward(config: SP.Config, events: seq<Event>, s: System, e: Event, s': System) returns (events': seq<Event>)
    requires PlainRun(config, INIT, events) && After(config, INIT, events) == s && Leads(config, s, e, s')
    ensures events' == events + [e] && PlainRun(config, INIT, events') && After(config, INIT, events') == s'
  {
    events' := events + [e];
    RunOneMore(config, INIT, events, e);
  }

  // -- the states of one data call ---------------------------------------------

  /** The gates with one call of one edge node, whose gate holds `cell`. */
  function Gates(config: SP.Config, edge: EdgeNode, cell: SP.Gate, phase: SP.Phase, wire: seq<Sent>): SP.System {
    SP.System(map[KeyOf(edge) := 0], [cell], [SP.Task(edge, [ST.Data(config, edge)], phase)], wire, 0)
  }

  /** The tracker with one publish. */
  function Tracked(unacked: u32, pub: DP.Pub, notifies: nat): DP.System {
    DP.System(Tracker(unacked, 0, 0, 0), [pub], [], notifies, 0, DP.NO_DEBT)
  }

  function Begun(config: SP.Config, edge: EdgeNode): System {
    System(
      SP.System(map[], [], [SP.Task(edge, [ST.Data(config, edge)], SP.Started)], [], 0),
      DP.INIT, [Idle], map[])
  }

  function Queued(config: SP.Config, edge: EdgeNode): System {
    System(Gates(config, edge, SP.Gate(0, None, []), SP.Waiting(0), []), DP.INIT, [Idle], map[])
  }

  function Drawn(config: SP.Config, edge: EdgeNode): System {
    System(Gates(config, edge, SP.Gate(1, Some(0), []), SP.Offering(0, 0, 0), []), DP.INIT, [Idle], map[])
  }

  function Offered(config: SP.Config, edge: EdgeNode): System {
    Drawn(config, edge).(
      delivery := Tracked(1, DP.Pub(Ticket(0), DP.Outstanding, true, DP.Offered), 0), slots := [InFlight(0)])
  }

  function InHand(config: SP.Config, edge: EdgeNode): System {
    System(
      Gates(config, edge, SP.Gate(1, Some(0), []), SP.Accepted(0, 0, 0), [Sent(ST.Data(config, edge), 1, 0)]),
      Tracked(1, DP.Pub(Ticket(0), DP.Outstanding, true, DP.Held), 0), [InFlight(0)], map[])
  }

  function Returned(config: SP.Config, edge: EdgeNode): System {
    var past := [Episode(0, [ST.Data(config, edge)], 1, true)];
    System(
      Gates(config, edge, SP.Gate(1, None, past), SP.Finished(SP.Published), [Sent(ST.Data(config, edge), 1, 0)]),
      Tracked(1, DP.Pub(Ticket(0), DP.Outstanding, false, DP.Held), 0), [Idle], map[0 := 0])
  }

  /** The call ended without its message: the count is back at 0, and so is the count of publishes. */
  function GivenUp(config: SP.Config, edge: EdgeNode, outcome: SP.Outcome): System {
    var past := [Episode(0, [ST.Data(config, edge)], 0, false)];
    System(
      Gates(config, edge, SP.Gate(0, None, past), SP.Finished(outcome), []),
      Tracked(0, DP.Pub(Ticket(0), DP.RolledBack, false, DP.Offered), 1), [Idle], map[])
  }

  /** Its guard dropped, before the reservation is. */
  function Unguarded(config: SP.Config, edge: EdgeNode): System {
    Drawn(config, edge).(
      delivery := Tracked(0, DP.Pub(Ticket(0), DP.RolledBack, false, DP.Offered), 1), slots := [Released])
  }

  lemma BeginLeads(config: SP.Config, edge: EdgeNode)
    ensures Leads(config, INIT, Begin(SP.PublishMetrics(ST.Data(config, edge))), Begun(config, edge))
  {
  }

  lemma CloneLeads(config: SP.Config, edge: EdgeNode)
    ensures Leads(config, Begun(config, edge), CloneGate(0), Queued(config, edge))
  {
  }

  lemma AcquireLeads(config: SP.Config, edge: EdgeNode)
    ensures Leads(config, Queued(config, edge), Acquire(0), Drawn(config, edge))
  {
  }

  lemma StartLeads(config: SP.Config, edge: EdgeNode)
    requires config.identity.None?
    ensures Leads(config, Drawn(config, edge), Start(0), Offered(config, edge))
  {
  }

  lemma TakeLeads(config: SP.Config, edge: EdgeNode)
    requires config.capacity >= 1
    ensures Leads(config, Offered(config, edge), Take(0), InHand(config, edge))
  {
  }

  lemma ResolveLeads(config: SP.Config, edge: EdgeNode)
    ensures Leads(config, InHand(config, edge), Resolve(0), Returned(config, edge))
  {
    var s := InHand(config, edge);
    var episode := Episode(0, [ST.Data(config, edge)], 1, true);
    assert SP.EpisodeOf(s.gates, 0, true) == episode && [] + [episode] == [episode];
    assert Next(config, s, Resolve(0)).gates == Returned(config, edge).gates;
  }

  lemma DropLeads(config: SP.Config, edge: EdgeNode)
    ensures Leads(config, Offered(config, edge), DropGuard(0), Unguarded(config, edge))
  {
  }

  lemma GiveUpLeads(config: SP.Config, edge: EdgeNode)
    ensures Leads(config, Unguarded(config, edge), Refuse(0), GivenUp(config, edge, SP.Refused))
    ensures Leads(config, Unguarded(config, edge), Cancel(0), GivenUp(config, edge, SP.Cancelled))
  {
    var s := Unguarded(config, edge);
    var episode := Episode(0, [ST.Data(config, edge)], 0, false);
    assert SP.EpisodeOf(s.gates, 0, false) == episode && [] + [episode] == [episode];
    assert Next(config, s, Refuse(0)).gates == GivenUp(config, edge, SP.Refused).gates;
    assert Next(config, s, Cancel(0)).gates == GivenUp(config, edge, SP.Cancelled).gates;
  }

  // -- a call that returns Ok --------------------------------------------------

  lemma StepsToOffered(config: SP.Config, edge: EdgeNode) returns (events: seq<Event>)
    requires config.identity.None?
    ensures events == [Begin(SP.PublishMetrics(ST.Data(config, edge)))] + [CloneGate(0)] + [Acquire(0)] + [Start(0)]
    ensures PlainRun(config, INIT, events) && After(config, INIT, events) == Offered(config, edge)
  {
    BeginLeads(config, edge);
    CloneLeads(config, edge);
    AcquireLeads(config, edge);
    StartLeads(config, edge);
    events := Onward(config, [], INIT, Begin(SP.PublishMetrics(ST.Data(config, edge))), Begun(config, edge));
    events := Onward(config, events, Begun(config, edge), CloneGate(0), Queued(config, edge));
    events := Onward(config, events, Queued(config, edge), Acquire(0), Drawn(config, edge));
    events := Onward(config, events, Drawn(config, edge), Start(0), Offered(config, edge));
  }

  /** One data call of a publisher, to its Ok: number 1 on the wire, and one publish outstanding. */
  lemma ReturnedCallRun(config: SP.Config, edge: EdgeNode) returns (events: seq<Event>)
    requires config.identity.None? && config.capacity >= 1
    ensures events == [Begin(SP.PublishMetrics(ST.Data(config, edge)))] + [CloneGate(0)] + [Acquire(0)] + [Start(0)]
                    + [Take(0)] + [Resolve(0)]
    ensures HonestRun(config, INIT, events) && PlainRun(config, INIT, events)
    ensures After(config, INIT, events) == Returned(config, edge) && ReturnedOk(Returned(config, edge), 0)
  {
    TakeLeads(config, edge);
    ResolveLeads(config, edge);
    events := StepsToOffered(config, edge);
    events := Onward(config, events, Offered(config, edge), Take(0), InHand(config, edge));
    events := Onward(config, events, InHand(config, edge), Resolve(0), Returned(config, edge));
    ShortRunIsHonest(config, INIT, events);
  }

  function Acknowledged(config: SP.Config, edge: EdgeNode): System {
    Returned(config, edge).(delivery := Tracked(0, DP.Pub(Ticket(0), DP.Acked, false, DP.Confirmed), 1))
  }

  lemma AckLeads(config: SP.Config, edge: EdgeNode)
    ensures Leads(config, Returned(config, edge), OnTracker(DP.PubAck(0)), Acknowledged(config, edge))
  {
  }

  /** With the count at 0 a flush opens, drains and answers Ok at once. */
  function Flushed(s: System, pub: DP.Pub, stage: DP.Stage): System {
    s.(delivery := DP.System(FRESH, [pub], [DP.Flush(0, 1, 0, stage)], 1, 0, DP.NO_DEBT))
  }

  /**
   * The whole life of a confirmed message: the call returns Ok, the broker acknowledges it, and a
   * flush that opens then answers Ok. The run is honest throughout.
   */
  lemma ConfirmedCallRun(config: SP.Config, edge: EdgeNode) returns (events: seq<Event>)
    requires config.identity.None? && config.capacity >= 1
    ensures HonestRun(config, INIT, events)
    ensures
      var s := After(config, INIT, events);
      && ReturnedOk(s, 0) && s.counted == map[0 := 0]
      && s.gates.wire == [Sent(ST.Data(config, edge), 1, 0)]
      && s.delivery.pubs == [DP.Pub(Ticket(0), DP.Acked, false, DP.Confirmed)]
      && s.delivery.flushes == [DP.Flush(0, 1, 0, DP.Answered(Success(()), 0))]
  {
    var s := Returned(config, edge);
    var pub := DP.Pub(Ticket(0), DP.Acked, false, DP.Confirmed);
    var acked := Acknowledged(config, edge);
    events := ReturnedCallRun(config, edge);
    AckLeads(config, edge);
    events := Onward(config, events, s, OnTracker(DP.PubAck(0)), acked);
    events := FlushAtOnce(config, events, acked, pub);
    ShortRunIsHonest(config, INIT, events);
  }

  lemma OpenLeads(config: SP.Config, s: System, pub: DP.Pub)
    requires s.delivery == Tracked(0, pub, 1)
    ensures Leads(config, s, OnTracker(DP.OpenFlush), Flushed(s, pub, DP.Looping))
  {
  }

  lemma RegisterLeads(config: SP.Config, s: System, pub: DP.Pub)
    ensures Leads(config, Flushed(s, pub, DP.Looping), OnTracker(DP.Register(0)), Flushed(s, pub, DP.Registered(false)))
  {
  }

  lemma CheckLeads(config: SP.Config, s: System, pub: DP.Pub)
    ensures Leads(config, Flushed(s, pub, DP.Registered(false)), OnTracker(DP.Check(0)), Flushed(s, pub, DP.Drained))
  {
  }

  lemma ReportLeads(config: SP.Config, s: System, pub: DP.Pub)
    requires pub.fate.Acked?
    ensures Leads(config, Flushed(s, pub, DP.Drained), OnTracker(DP.Report(0)),
                  Flushed(s, pub, DP.Answered(Success(()), 0)))
  {
    assert DP.ReportLosses([pub], 0, 1) == [pub];
  }

  lemma FlushAtOnce(config: SP.Config, events: seq<Event>, s: System, pub: DP.Pub) returns (events': seq<Event>)
    requires PlainRun(config, INIT, events) && After(config, INIT, events) == s && s.delivery == Tracked(0, pub, 1)
    requires pub.fate.Acked?
    ensures events' == events + [OnTracker(DP.OpenFlush)] + [OnTracker(DP.Register(0))]
                     + [OnTracker(DP.Check(0))] + [OnTracker(DP.Report(0))]
    ensures PlainRun(config, INIT, events')
    ensures After(config, INIT, events') == Flushed(s, pub, DP.Answered(Success(()), 0))
  {
    var s1, s2, s3 := Flushed(s, pub, DP.Looping), Flushed(s, pub, DP.Registered(false)), Flushed(s, pub, DP.Drained);
    OpenLeads(config, s, pub);
    RegisterLeads(config, s, pub);
    CheckLeads(config, s, pub);
    ReportLeads(config, s, pub);
    events' := Onward(config, events, s, OnTracker(DP.OpenFlush), s1);
    events' := Onward(config, events', s1, OnTracker(DP.Register(0)), s2);
    events' := Onward(config, events', s2, OnTracker(DP.Check(0)), s3);
    events' := Onward(config, events', s3, OnTracker(DP.Report(0)), Flushed(s, pub, DP.Answered(Success(()), 0)));
  }

  // -- calls that end without their message ------------------------------------

  /** The guard goes first, and takes the count back; the reservation follows. */
  lemma DropTheGuard(config: SP.Config, edge: EdgeNode) returns (events: seq<Event>)
    requires config.identity.None?
    ensures events == [Begin(SP.PublishMetrics(ST.Data(config, edge)))] + [CloneGate(0)] + [Acquire(0)] + [Start(0)]
                    + [DropGuard(0)]
    ensures PlainRun(config, INIT, events) && After(config, INIT, events) == Unguarded(config, edge)
  {
    DropLeads(config, edge);
    events := StepsToOffered(config, edge);
    events := Onward(config, events, Offered(config, edge), DropGuard(0), Unguarded(config, edge));
  }

  /** A message the client refuses: nothing on the wire, both counts back where they were. */
  lemma RefusedCallRun(config: SP.Config, edge: EdgeNode) returns (events: seq<Event>)
    requires config.identity.None?
    ensures events == [Begin(SP.PublishMetrics(ST.Data(config, edge)))] + [CloneGate(0)] + [Acquire(0)] + [Start(0)]
                    + [DropGuard(0)] + [Refuse(0)]
    ensures HonestRun(config, INIT, events) && After(config, INIT, events) == GivenUp(config, edge, SP.Refused)
  {
    GiveUpLeads(config, edge);
    events := DropTheGuard(config, edge);
    events := Onward(config, events, Unguarded(config, edge), Refuse(0), GivenUp(config, edge, SP.Refused));
    ShortRunIsHonest(config, INIT, events);
  }

  /** A call cancelled while it waits for the client ends the same way. */
  lemma CancelledCallRun(config: SP.Config, edge: EdgeNode) returns (events: seq<Event>)
    requires config.identity.None?
    ensures events == [Begin(SP.PublishMetrics(ST.Data(config, edge)))] + [CloneGate(0)] + [Acquire(0)] + [Start(0)]
                    + [DropGuard(0)] + [Cancel(0)]
    ensures HonestRun(config, INIT, events) && After(config, INIT, events) == GivenUp(config, edge, SP.Cancelled)
  {
    GiveUpLeads(config, edge);
    events := DropTheGuard(config, edge);
    events := Onward(config, events, Unguarded(config, edge), Cancel(0), GivenUp(config, edge, SP.Cancelled));
    ShortRunIsHonest(config, INIT, events);
  }
}

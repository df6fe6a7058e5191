/**
 * The event loop inside the delivery protocol: every acknowledgement and every disconnect of a run
 * comes from one poll of the loop, and the class the loop drives ends where the protocol does.
 */
module LoopProtocol {
  import opened Delivery
  import EL = EventLoop
  import DP = DeliveryProtocol

  /**
   * One turn of the loop: what publishes and flushes do before the poll returns, and what it returns.
   * `pub` is the publish a PubAck answers, which the loop cannot see.
   */
  datatype Turn = Turn(others: seq<DP.Event>, poll: EL.PollEvent, pub: nat)

  /** The one event of the tracker a poll is, or none. */
  function PollPart(turn: Turn): seq<DP.Event> {
    match turn.poll
    case PubAck => [DP.PubAck(turn.pub)]
    case IncomingDisconnect => [DP.Disconnect]
    case PollError => [DP.Disconnect]
    case _ => []
  }

  function EventsOf(turns: seq<Turn>): seq<DP.Event> {
    if turns == [] then []
    else
      var n := |turns| - 1;
      EventsOf(turns[..n]) + turns[n].others + PollPart(turns[n])
  }

  function TraceOf(turns: seq<Turn>): (trace: seq<EL.PollEvent>)
    ensures |trace| == |turns|
  {
    seq(|turns|, i requires 0 <= i < |turns| => turns[i].poll)
  }

  /** What publishes and flushes do by themselves. */
  ghost predicate LoopFree(events: seq<DP.Event>) {
    forall i | 0 <= i < |events| :: !events[i].PubAck? && !events[i].Disconnect?
  }

  lemma OneTurnMore(turns: seq<Turn>, turn: Turn)
    ensures EventsOf(turns + [turn]) == EventsOf(turns) + turn.others + PollPart(turn)
  {
    assert (turns + [turn])[..|turns|] == turns;
  }

  /** The poll that brings an acknowledgement or a disconnect, after what came `between`. */
  function TurnOf(between: seq<DP.Event>, e: DP.Event): Turn {
    if e.PubAck? then Turn(between, EL.PubAck, e.pub) else Turn(between, EL.PollError, 0)
  }

  /** Every run is a trace of the loop with the other tasks' events between its polls. */
  lemma {:induction false} EveryRunIsATrace(events: seq<DP.Event>) returns (turns: seq<Turn>, rest: seq<DP.Event>)
    ensures events == EventsOf(turns) + rest
    ensures LoopFree(rest) && forall i | 0 <= i < |turns| :: LoopFree(turns[i].others)
  {
    if events == [] {
      turns, rest := [], [];
    } else {
      var n := |events| - 1;
      var e := events[n];
      var before, between := EveryRunIsATrace(events[..n]);
      calc {
        events;
        events[..n] + [e];
        EventsOf(before) + between + [e];
      }
      if e.PubAck? || e.Disconnect? {
        OneTurnMore(before, TurnOf(between, e));
        turns, rest := before + [TurnOf(between, e)], [];
      } else {
        turns, rest := before, between + [e];
      }
    }
  }

  // -- the lock sections of a run ----------------------------------------------

  /** The lock section of the tracker an event is, or none. */
  function Section(s: DP.System, e: DP.Event): seq<Op>
    requires DP.Enabled(s, e)
  {
    match e
    case CountPublish => [OpCount]
    case DropGuard(p) => [OpFail(s.pubs[p].ticket)]
    case PubAck(_) => [OpAck]
    case Disconnect => [OpDisconnect]
    case Report(_) => [OpReport]
    case _ => []
  }

  ghost function Sections(s: DP.System, events: seq<DP.Event>): seq<Op>
    requires DP.ValidRun(s, events)
    decreases |events|
  {
    if events == [] then [] else Section(s, events[0]) + Sections(DP.Next(s, events[0]), events[1..])
  }

  lemma SectionStep(s: DP.System, e: DP.Event)
    requires DP.Enabled(s, e)
    ensures DP.Next(s, e).tracker == PerformAll(s.tracker, Section(s, e))
  {
    PerformOne(s.tracker, Section(s, e));
  }

  lemma PerformOne(s: Tracker, ops: seq<Op>)
    requires |ops| <= 1
    ensures PerformAll(s, ops) == if ops == [] then s else Perform(s, ops[0])
  {
    if |ops| == 1 {
      assert ops[..0] == [];
    }
  }

  lemma {:induction false} PerformInTurn(s: Tracker, a: seq<Op>, b: seq<Op>)
    ensures PerformAll(s, a + b) == PerformAll(PerformAll(s, a), b)
  {
    if b == [] {
      assert a + b == a;
    } else {
      var n := |b| - 1;
      assert (a + b)[..|a + b| - 1] == a + b[..n];
      PerformInTurn(s, a, b[..n]);
    }
  }

  /** The tracker of a run is what its lock sections make of it, in order. */
  lemma {:induction false} RunIsItsSections(s: DP.System, events: seq<DP.Event>)
    requires DP.ValidRun(s, events)
    ensures DP.After(s, events).tracker == PerformAll(s.tracker, Sections(s, events))
    decreases |events|
  {
    if events == [] {
    } else {
      SectionStep(s, events[0]);
      RunIsItsSections(DP.Next(s, events[0]), events[1..]);
      PerformInTurn(s.tracker, Section(s, events[0]), Sections(DP.Next(s, events[0]), events[1..]));
    }
  }

  lemma {:induction false} RunInTurn(s: DP.System, a: seq<DP.Event>, b: seq<DP.Event>)
    requires DP.ValidRun(s, a + b)
    ensures DP.ValidRun(s, a) && DP.ValidRun(DP.After(s, a), b)
    ensures DP.After(s, a + b) == DP.After(DP.After(s, a), b)
    decreases |a|
  {
    if a == [] {
      assert a + b == b;
    } else {
      assert (a + b)[1..] == a[1..] + b;
      RunInTurn(DP.Next(s, a[0]), a[1..], b);
    }
  }

  // -- the loop in the protocol ------------------------------------------------

  lemma TurnsInTurn(s: DP.System, turns: seq<Turn>)
    requires turns != [] && DP.ValidRun(s, EventsOf(turns))
    ensures
      var n := |turns| - 1;
      && DP.ValidRun(s, EventsOf(turns[..n]))
      && var before := DP.After(s, EventsOf(turns[..n]));
         && DP.ValidRun(before, turns[n].others)
         && DP.ValidRun(DP.After(before, turns[n].others), PollPart(turns[n]))
         && DP.After(s, EventsOf(turns)) == DP.After(DP.After(before, turns[n].others), PollPart(turns[n]))
  {
    var n := |turns| - 1;
    var before := EventsOf(turns[..n]);
    RunInTurn(s, before + turns[n].others, PollPart(turns[n]));
    RunInTurn(s, before, turns[n].others);
  }

  /** What the other tasks do to the tracker between the polls. */
  ghost function Between(s: DP.System, turns: seq<Turn>): (between: seq<seq<Op>>)
    requires DP.ValidRun(s, EventsOf(turns))
    ensures |between| == |turns|
  {
    if turns == [] then []
    else
      var n := |turns| - 1;
      assert DP.ValidRun(s, EventsOf(turns[..n]))
          && DP.ValidRun(DP.After(s, EventsOf(turns[..n])), turns[n].others) by { TurnsInTurn(s, turns); }
      Between(s, turns[..n]) + [Sections(DP.After(s, EventsOf(turns[..n])), turns[n].others)]
  }

  lemma PollIsItsEvent(s: DP.System, turn: Turn)
    requires DP.ValidRun(s, PollPart(turn))
    ensures DP.After(s, PollPart(turn)).tracker == EL.ApplyToTracker(s.tracker, turn.poll)
  {
    if PollPart(turn) != [] {
      assert PollPart(turn)[1..] == [];
    }
  }

  /**
   * Every run of the protocol whose acknowledgements and disconnects come from the loop's polls is a
   * trace of the loop: the fold that `Session.Run` is proved to compute ends in the run's tracker.
   */
  lemma {:induction false} LoopRunsTheProtocol(s: DP.System, turns: seq<Turn>)
    requires DP.ValidRun(s, EventsOf(turns))
    ensures
      EL.TrackerAfter(s.tracker, TraceOf(turns), Between(s, turns)) == DP.After(s, EventsOf(turns)).tracker
  {
    if turns == [] {
    } else {
      var n := |turns| - 1;
      TurnsInTurn(s, turns);
      LoopRunsTheProtocol(s, turns[..n]);
      var before := DP.After(s, EventsOf(turns[..n]));
      RunIsItsSections(before, turns[n].others);
      PollIsItsEvent(DP.After(before, turns[n].others), turns[n]);
      assert TraceOf(turns)[..n] == TraceOf(turns[..n]);
      assert Between(s, turns)[..n] == Between(s, turns[..n]);
    }
  }
}

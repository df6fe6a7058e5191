/**
 * The whole client as one concurrent system: the gates, the delivery tracker and the guard that
 * ties them inside `publish_message` (src/sparkplug/client/publish.rs:286-379). Every run of it
 * projects onto a run of each part, so the theorems about the parts hold of it.
 */
module PublishSystem {
  import opened Prelude
  import opened Types
  import opened Ids
  import opened SeqSpec
  import SP = SeqProtocol
  import DP = DeliveryProtocol
  import ST = SeqTheorems
  import DT = DeliveryTheorems

  /** Where the publish of a call's current message stands with the tracker. */
  datatype Slot =
    | Idle
    /** The role sends the message untracked. */
    | Untracked
    /** Counted; the guard of publish `pub` lives. */
    | InFlight(pub: nat)
    /** The guard was dropped, so the call can only end. */
    | Released

  /** `counted` is bookkeeping: the publish the latest message of a call was counted as. */
  datatype System = System(gates: SP.System, delivery: DP.System, slots: seq<Slot>, counted: map<nat, nat>)

  const INIT := System(SP.INIT, DP.INIT, [], map[])

  datatype Event =
    | Begin(call: SP.Call)
    | CloneGate(task: nat)
    | Acquire(task: nat)
    /** `publish_message` up to its first await: count the message when the role tracks it. */
    | Start(task: nat)
    | Take(task: nat)
    | Resolve(task: nat)
    | DropGuard(task: nat)
    | Refuse(task: nat)
    | Cancel(task: nat)
    | Drain
    /** Acknowledgements, disconnects, notifications and flushes. */
    | OnTracker(event: DP.Event)

  function RoleOf(config: SP.Config): Role {
    if config.identity.Some? then EdgeNodeRole else Publisher
  }

  predicate IsOffering(s: System, t: nat) {
    && t < |s.gates.tasks| && t < |s.slots|
    && s.gates.tasks[t].phase.Offering?
    && s.gates.tasks[t].phase.index < |s.gates.tasks[t].topics|
  }

  predicate Tracked(config: SP.Config, s: System, t: nat)
    requires IsOffering(s, t)
  {
    WireOptionsFor(RoleOf(config), s.gates.tasks[t].topics[s.gates.tasks[t].phase.index].messageType).tracked
  }

  function GatePart(e: Event): Option<SP.Event> {
    match e
    case Begin(call) => Some(SP.Begin(call))
    case CloneGate(t) => Some(SP.CloneGate(t))
    case Acquire(t) => Some(SP.Acquire(t))
    case Take(t) => Some(SP.Take(t))
    case Resolve(t) => Some(SP.Resolve(t))
    case Refuse(t) => Some(SP.Refuse(t))
    case Cancel(t) => Some(SP.Cancel(t))
    case Drain => Some(SP.Drain)
    case _ => None
  }

  function TrackerPart(config: SP.Config, s: System, e: Event): Option<DP.Event> {
    match e
    case Start(t) => if IsOffering(s, t) && Tracked(config, s, t) then Some(DP.CountPublish) else None
    case Take(t) => if t < |s.slots| && s.slots[t].InFlight? then Some(DP.TakePublish(s.slots[t].pub)) else None
    case Resolve(t) => if t < |s.slots| && s.slots[t].InFlight? then Some(DP.KeepGuard(s.slots[t].pub)) else None
    case DropGuard(t) => if t < |s.slots| && s.slots[t].InFlight? then Some(DP.DropGuard(s.slots[t].pub)) else None
    case OnTracker(event) => Some(event)
    case _ => None
  }

  predicate Enabled(config: SP.Config, s: System, e: Event) {
    && (GatePart(e).Some? ==> SP.Enabled(config, s.gates, GatePart(e).value))
    && (TrackerPart(config, s, e).Some? ==> DP.Enabled(s.delivery, TrackerPart(config, s, e).value))
    && match e
       case Start(t) => IsOffering(s, t) && s.slots[t].Idle?
       case Take(t) => t < |s.slots| && (s.slots[t].InFlight? || s.slots[t].Untracked?)
       case Resolve(t) => t < |s.slots| && (s.slots[t].InFlight? || s.slots[t].Untracked?)
       case DropGuard(t) => t < |s.slots| && s.slots[t].InFlight?
       case Refuse(t) => t < |s.slots| && (s.slots[t].Untracked? || s.slots[t].Released?)
       case Cancel(t) => t < |s.slots| && !s.slots[t].InFlight?
       case OnTracker(event) =>
         !event.CountPublish? && !event.TakePublish? && !event.KeepGuard? && !event.DropGuard?
       case _ => true
  }

  function SlotsAfter(config: SP.Config, s: System, e: Event): seq<Slot>
    requires Enabled(config, s, e)
  {
    match e
    case Begin(call) => if SP.Plan(config, call).Success? then s.slots + [Idle] else s.slots
    case Start(t) => s.slots[t := if Tracked(config, s, t) then InFlight(|s.delivery.pubs|) else Untracked]
    case Resolve(t) => s.slots[t := Idle]
    case DropGuard(t) => s.slots[t := Released]
    case Refuse(t) => s.slots[t := Idle]
    case Cancel(t) => s.slots[t := Idle]
    case _ => s.slots
  }

  function Next(config: SP.Config, s: System, e: Event): System
    requires Enabled(config, s, e)
  {
    System(
      if GatePart(e).Some? then SP.Next(config, s.gates, GatePart(e).value) else s.gates,
      if TrackerPart(config, s, e).Some? then DP.Next(s.delivery, TrackerPart(config, s, e).value) else s.delivery,
      SlotsAfter(config, s, e),
      if e.Resolve? && s.slots[e.task].InFlight? then s.counted[e.task := s.slots[e.task].pub] else s.counted)
  }

  ghost predicate ValidRun(config: SP.Config, s: System, events: seq<Event>)
    decreases |events|
  {
    events == [] || (Enabled(config, s, events[0]) && ValidRun(config, Next(config, s, events[0]), events[1..]))
  }

  ghost function After(config: SP.Config, s: System, events: seq<Event>): System
    requires ValidRun(config, s, events)
    decreases |events|
  {
    if events == [] then s else After(config, Next(config, s, events[0]), events[1..])
  }

  /** The tracker's assumptions, asked of the whole system. */
  ghost predicate HonestRun(config: SP.Config, s: System, events: seq<Event>): (r: bool)
    ensures r ==> ValidRun(config, s, events)
    decreases |events|
  {
    events == [] ||
    (&& Enabled(config, s, events[0])
     && (TrackerPart(config, s, events[0]).Some? ==> DP.Honest(s.delivery, TrackerPart(config, s, events[0]).value))
     && DP.Fits(Next(config, s, events[0]).delivery)
     && HonestRun(config, Next(config, s, events[0]), events[1..]))
  }

  // -- projections -------------------------------------------------------------

  /** Every run is a run of the gates and a run of the tracker, and honesty carries over. */
  lemma {:induction false} RunProjects(config: SP.Config, s: System, events: seq<Event>)
    returns (gateEvents: seq<SP.Event>, trackerEvents: seq<DP.Event>)
    requires ValidRun(config, s, events)
    ensures SP.ValidRun(config, s.gates, gateEvents)
    ensures SP.After(config, s.gates, gateEvents) == After(config, s, events).gates
    ensures DP.ValidRun(s.delivery, trackerEvents)
    ensures DP.After(s.delivery, trackerEvents) == After(config, s, events).delivery
    ensures HonestRun(config, s, events) ==> DP.HonestRun(s.delivery, trackerEvents)
    decreases |events|
  {
    if events == [] {
      gateEvents, trackerEvents := [], [];
    } else {
      var e := events[0];
      var gates, tracks := RunProjects(config, Next(config, s, e), events[1..]);
      gateEvents := if GatePart(e).Some? then [GatePart(e).value] + gates else gates;
      trackerEvents := if TrackerPart(config, s, e).Some? then [TrackerPart(config, s, e).value] + tracks else tracks;
      assert GatePart(e).Some? ==> gateEvents[1..] == gates;
      assert TrackerPart(config, s, e).Some? ==> trackerEvents[1..] == tracks;
    }
  }

  // -- counted before taken ----------------------------------------------------

  function IsTaken(pub: DP.Pub): nat {
    if pub.Taken() then 1 else 0
  }

  function TakenCount(pubs: seq<DP.Pub>): nat {
    Sum(IsTaken, pubs)
  }

  /** A live guard belongs to one call, holds a counted publish, and knows whether it was taken. */
  ghost predicate SlotOk(config: SP.Config, s: System, t: nat)
    requires |s.slots| == |s.gates.tasks| && t < |s.slots|
  {
    var phase := s.gates.tasks[t].phase;
    && (!phase.Holds() ==> s.slots[t].Idle?)
    && (phase.Accepted? ==> !s.slots[t].Idle?)
    && (s.slots[t].InFlight? ==>
          && s.slots[t].pub < |s.delivery.pubs|
          && s.delivery.pubs[s.slots[t].pub].guarded
          && (s.delivery.pubs[s.slots[t].pub].Taken() <==> phase.Accepted?)
          && forall u | 0 <= u < |s.slots| && u != t && s.slots[u].InFlight? :: s.slots[u].pub != s.slots[t].pub)
    && (s.slots[t].Untracked? ==> config.identity.Some?)
  }

  ghost predicate SlotsOk(config: SP.Config, s: System) {
    && |s.slots| == |s.gates.tasks|
    && (forall t | 0 <= t < |s.slots| :: SlotOk(config, s, t))
    && (config.identity.None? ==> TakenCount(s.delivery.pubs) == |s.gates.wire|)
  }

  /** Only a call's own guard events change whether a publish is guarded or taken. */
  lemma TrackerKeepsGuards(d: DP.System, e: DP.Event, p: nat)
    requires DP.Enabled(d, e) && p < |d.pubs|
    requires e.TakePublish? || e.KeepGuard? || e.DropGuard? ==> e.pub != p
    ensures
      var pubs := DP.Next(d, e).pubs;
      p < |pubs| && pubs[p].guarded == d.pubs[p].guarded && pubs[p].Taken() == d.pubs[p].Taken()
  {
  }

  lemma LiveGuardsAreApart(config: SP.Config, s: System, t: nat, u: nat)
    requires SlotsOk(config, s) && t < |s.slots| && u < |s.slots|
    requires s.slots[t].InFlight? && s.slots[u].InFlight?
    ensures s.slots[t].pub < |s.delivery.pubs|
    ensures t != u ==> s.slots[t].pub != s.slots[u].pub
  {
    assert SlotOk(config, s, t);
  }

  lemma SlotStep(config: SP.Config, s: System, e: Event, t: nat)
    requires SlotsOk(config, s) && Enabled(config, s, e)
    requires |Next(config, s, e).slots| == |Next(config, s, e).gates.tasks|
    requires t < |Next(config, s, e).slots|
    ensures SlotOk(config, Next(config, s, e), t)
  {
    if t < |s.slots| {
      assert SlotOk(config, s, t);
      forall u | 0 <= u < |s.slots| && s.slots[u].InFlight?
        ensures s.slots[u].pub < |s.delivery.pubs|
        ensures s.slots[t].InFlight? && u != t ==> s.slots[u].pub != s.slots[t].pub
      {
        LiveGuardsAreApart(config, s, u, if s.slots[t].InFlight? then t else u);
      }
      if e.OnTracker? {
        if s.slots[t].InFlight? {
          TrackerKeepsGuards(s.delivery, e.event, s.slots[t].pub);
        }
      } else if EventOf(e, t) {
        SlotStepOfOwn(config, s, e, t);
      } else {
        SlotStepOfOther(config, s, e, t);
      }
    }
  }

  /** The guards of the other calls are of other publishes, all of them counted. */
  predicate GuardsApart(s: System, t: nat)
    requires t < |s.slots|
  {
    && (forall u | 0 <= u < |s.slots| && s.slots[u].InFlight? :: s.slots[u].pub < |s.delivery.pubs|)
    && (s.slots[t].InFlight? ==>
          forall u | 0 <= u < |s.slots| && u != t && s.slots[u].InFlight? :: s.slots[u].pub != s.slots[t].pub)
  }

  predicate EventOf(e: Event, t: nat) {
    !e.Begin? && !e.Drain? && !e.OnTracker? && e.task == t
  }

  lemma SlotStepOfOwn(config: SP.Config, s: System, e: Event, t: nat)
    requires Enabled(config, s, e) && EventOf(e, t) && |s.slots| == |s.gates.tasks|
    requires |Next(config, s, e).slots| == |Next(config, s, e).gates.tasks|
    requires t < |s.slots| && SlotOk(config, s, t) && GuardsApart(s, t)
    ensures SlotOk(config, Next(config, s, e), t)
  {
  }

  lemma SlotStepOfOther(config: SP.Config, s: System, e: Event, t: nat)
    requires Enabled(config, s, e) && !EventOf(e, t) && !e.OnTracker? && |s.slots| == |s.gates.tasks|
    requires |Next(config, s, e).slots| == |Next(config, s, e).gates.tasks|
    requires t < |s.slots| && SlotOk(config, s, t) && GuardsApart(s, t)
    ensures SlotOk(config, Next(config, s, e), t)
  {
    assert Next(config, s, e).gates.tasks[t] == s.gates.tasks[t] && Next(config, s, e).slots[t] == s.slots[t];
    if s.slots[t].InFlight? && TrackerPart(config, s, e).Some? {
      TrackerKeepsGuards(s.delivery, TrackerPart(config, s, e).value, s.slots[t].pub);
    }
  }

  /** Nothing but a take marks a publish taken. */
  lemma TakenByTakeOnly(d: DP.System, e: DP.Event)
    requires DP.Enabled(d, e) && !e.TakePublish?
    ensures TakenCount(DP.Next(d, e).pubs) == TakenCount(d.pubs)
  {
    var pubs' := DP.Next(d, e).pubs;
    if e.CountPublish? {
      SumAppend(IsTaken, d.pubs, pubs'[|d.pubs|]);
    } else {
      SumSame(IsTaken, d.pubs, pubs');
    }
  }

  lemma TakenStep(config: SP.Config, s: System, e: Event)
    requires SlotsOk(config, s) && Enabled(config, s, e) && config.identity.None?
    ensures TakenCount(Next(config, s, e).delivery.pubs) == |Next(config, s, e).gates.wire|
  {
    if e.Take? {
      assert SlotOk(config, s, e.task);
      var p := s.slots[e.task].pub;
      SumUpdate(IsTaken, s.delivery.pubs, p, s.delivery.pubs[p].(custody := DP.Held));
    } else if TrackerPart(config, s, e).Some? {
      TakenByTakeOnly(s.delivery, TrackerPart(config, s, e).value);
    }
  }

  lemma SlotsStep(config: SP.Config, s: System, e: Event)
    requires SlotsOk(config, s) && Enabled(config, s, e)
    ensures SlotsOk(config, Next(config, s, e))
  {
    forall t | 0 <= t < |Next(config, s, e).slots|
      ensures SlotOk(config, Next(config, s, e), t)
    {
      SlotStep(config, s, e, t);
    }
    if config.identity.None? {
      TakenStep(config, s, e);
    }
  }

  lemma {:induction false} SlotsRun(config: SP.Config, s: System, events: seq<Event>)
    requires SlotsOk(config, s) && ValidRun(config, s, events)
    ensures SlotsOk(config, After(config, s, events))
    decreases |events|
  {
    if events == [] {
    } else {
      SlotsStep(config, s, events[0]);
      SlotsRun(config, Next(config, s, events[0]), events[1..]);
    }
  }

  /**
   * In the publisher role every message is counted before the client can take it: a take needs a
   * live count of its own that no other call holds, and the messages the client took are exactly
   * as many as the counted publishes marked taken.
   */
  lemma PublisherCountsBeforeTheClientTakes(config: SP.Config, events: seq<Event>, t: nat)
    requires config.identity.None? && ValidRun(config, INIT, events)
    ensures
      var s := After(config, INIT, events);
      TakenCount(s.delivery.pubs) == |s.gates.wire|
    ensures
      var s := After(config, INIT, events);
      Enabled(config, s, Take(t)) ==>
        && s.slots[t].InFlight? && s.slots[t].pub < |s.delivery.pubs|
        && s.delivery.pubs[s.slots[t].pub].guarded && !s.delivery.pubs[s.slots[t].pub].Taken()
        && forall u | 0 <= u < |s.slots| && u != t :: s.slots[u] != s.slots[t]
  {
    SlotsRun(config, INIT, events);
    var s := After(config, INIT, events);
    if Enabled(config, s, Take(t)) {
      assert SlotOk(config, s, t);
    }
  }

  // -- the whole system --------------------------------------------------------

  /** The sequence rule, exactly, with the tracker and its guards in the run. */
  lemma SystemGapExactlyAfterADroppedCall(config: SP.Config, events: seq<Event>, edge: EdgeNode, p: nat)
    requires ValidRun(config, INIT, events)
    requires p + 1 < |SP.OnWire(After(config, INIT, events).gates.wire, edge)|
    requires !SP.OnWire(After(config, INIT, events).gates.wire, edge)[p + 1].IsNBirth()
    ensures
      var s := After(config, INIT, events).gates;
      var w := SP.OnWire(s.wire, edge);
      w[p + 1].number == Succ8(w[p].number) <==>
        || !ST.Dropped(s, w[p].task)
        || w[p].task == w[p + 1].task
        || LastKept(ST.KeptCalls(s), w[..p + 1]) == w[p].number
  {
    var gateEvents, _ := RunProjects(config, INIT, events);
    ST.GapExactlyAfterADroppedCall(config, gateEvents, edge, p);
  }

  /** A flush that returned Ok on an honest run of the whole client passed over no publish. */
  lemma SystemFlushSoundness(config: SP.Config, events: seq<Event>, f: nat, p: nat)
    requires HonestRun(config, INIT, events)
    requires
      var d := After(config, INIT, events).delivery;
      DT.AnsweredOk(d, f) && p < d.flushes[f].seen
    ensures DT.AccountsFor(After(config, INIT, events).delivery, f, p)
  {
    var _, trackerEvents := RunProjects(config, INIT, events);
    DT.FlushSoundness(trackerEvents, f, p);
  }

  // -- what a flush tells a caller ---------------------------------------------

  /** A call that returned Ok has a count of its own, for a message the client took. */
  ghost predicate ReturnedOk(s: System, t: nat) {
    t < |s.gates.tasks| && s.gates.tasks[t].phase == SP.Finished(SP.Published)
  }

  /** The client took the message and no rollback can touch its count any more. */
  predicate Kept(pub: DP.Pub) {
    pub.Taken() && !pub.guarded && !pub.fate.RolledBack?
  }

  predicate DroppedHoldNoGuard(d: DP.System) {
    forall p | 0 <= p < |d.pubs| :: d.pubs[p].fate.RolledBack? ==> !d.pubs[p].guarded
  }

  lemma DroppedStep(d: DP.System, e: DP.Event)
    requires DP.Enabled(d, e) && DroppedHoldNoGuard(d)
    ensures DroppedHoldNoGuard(DP.Next(d, e))
  {
  }

  lemma KeptStep(d: DP.System, e: DP.Event, p: nat)
    requires DP.Enabled(d, e) && p < |d.pubs| && Kept(d.pubs[p])
    ensures p < |DP.Next(d, e).pubs| && Kept(DP.Next(d, e).pubs[p])
  {
  }

  ghost predicate CountedOk(s: System) {
    && (forall t | t in s.counted ::
          && s.counted[t] < |s.delivery.pubs|
          && Kept(s.delivery.pubs[s.counted[t]]))
    && DroppedHoldNoGuard(s.delivery)
    && (forall t, u | t in s.counted && u in s.counted && s.counted[t] == s.counted[u] :: t == u)
    && (forall t | ReturnedOk(s, t) :: t in s.counted)
  }

  /** A publish that was counted for a returned call is left alone by every later event. */
  lemma CountedStays(config: SP.Config, s: System, e: Event, p: nat)
    requires SlotsOk(config, s) && Enabled(config, s, e)
    requires p < |s.delivery.pubs| && Kept(s.delivery.pubs[p])
    ensures
      var pubs := Next(config, s, e).delivery.pubs;
      p < |pubs| && Kept(pubs[p])
    ensures e.Resolve? && s.slots[e.task].InFlight? ==> s.slots[e.task].pub != p
  {
    if e.Start? || e.Take? || e.Resolve? || e.DropGuard? {
      assert SlotOk(config, s, e.task);
    }
    if TrackerPart(config, s, e).Some? {
      KeptStep(s.delivery, TrackerPart(config, s, e).value, p);
    }
  }

  lemma CountedStep(config: SP.Config, s: System, e: Event)
    requires config.identity.None? && SlotsOk(config, s) && CountedOk(s) && Enabled(config, s, e)
    ensures CountedOk(Next(config, s, e))
  {
    var s' := Next(config, s, e);
    forall t | t in s.counted {
      CountedStays(config, s, e, s.counted[t]);
    }
    if TrackerPart(config, s, e).Some? {
      DroppedStep(s.delivery, TrackerPart(config, s, e).value);
    }
    if e.Resolve? {
      assert SlotOk(config, s, e.task);
    }
    forall t | ReturnedOk(s', t)
      ensures t in s'.counted
    {
      ReturnsByResolve(config, s, e, t);
    }
  }

  lemma ReturnsByResolve(config: SP.Config, s: System, e: Event, t: nat)
    requires Enabled(config, s, e) && ReturnedOk(Next(config, s, e), t)
    ensures ReturnedOk(s, t) || e == Resolve(t)
  {
  }

  lemma {:induction false} CountedRun(config: SP.Config, s: System, events: seq<Event>)
    requires config.identity.None? && SlotsOk(config, s) && CountedOk(s) && ValidRun(config, s, events)
    ensures CountedOk(After(config, s, events))
    decreases |events|
  {
    if events == [] {
    } else {
      CountedStep(config, s, events[0]);
      SlotsStep(config, s, events[0]);
      CountedRun(config, Next(config, s, events[0]), events[1..]);
    }
  }

  /** On every publisher run: the count of a call that returned Ok was never taken back. */
  lemma ReturnedCallsKeepTheirCount(config: SP.Config, events: seq<Event>, t: nat)
    requires config.identity.None? && ValidRun(config, INIT, events)
    requires ReturnedOk(After(config, INIT, events), t)
    ensures
      var s := After(config, INIT, events);
      && t in s.counted && s.counted[t] < |s.delivery.pubs|
      && var pub := s.delivery.pubs[s.counted[t]];
         pub.Taken() && !pub.guarded && !pub.fate.RolledBack?
  {
    SlotsRun(config, INIT, events);
    CountedRun(config, INIT, events);
  }

  /**
   * What each event of a call does to the tracker's counts: a tracked start counts one, the end of a
   * guard in its own generation takes one back, and nothing else a call does moves them.
   */
  lemma CallsMoveTheCount(config: SP.Config, s: System, e: Event)
    requires Enabled(config, s, e) && !e.OnTracker?
    ensures
      var before, after := s.delivery.tracker, Next(config, s, e).delivery.tracker;
      match e
      case Start(t) =>
        var mt := s.gates.tasks[t].topics[s.gates.tasks[t].phase.index].messageType;
        if config.identity.None? || mt.NDEATH? || mt.STATE? then
          && after == before.(unacked := (before.unacked + 1) % 0x1_0000_0000)
          && Next(config, s, e).slots[t] == InFlight(|s.delivery.pubs|)
        else
          after == before && Next(config, s, e).slots[t] == Untracked
      case DropGuard(t) =>
        after == if s.delivery.pubs[s.slots[t].pub].ticket.generation == before.generation && before.unacked > 0
                 then before.(unacked := before.unacked - 1) else before
      case _ => after == before
  {
  }

  /** Publish `p`, once taken, stays taken, and a flush that opens later must answer for it. */
  predicate Behind(d: DP.System, p: nat, openings: nat) {
    && p < |d.pubs| && d.pubs[p].Taken()
    && forall f | openings <= f < |d.flushes| :: p < d.flushes[f].seen
  }

  lemma {:induction false} BehindRun(d: DP.System, events: seq<DP.Event>, p: nat, openings: nat)
    requires Behind(d, p, openings) && DP.ValidRun(d, events)
    ensures Behind(DP.After(d, events), p, openings)
    decreases |events|
  {
    if events == [] {
    } else {
      assert Behind(DP.Next(d, events[0]), p, openings);
      BehindRun(DP.Next(d, events[0]), events[1..], p, openings);
    }
  }

  /**
   * What a flush tells a caller. In the publisher role, on an honest run, let a call return Ok, then
   * a flush open, and then that flush return Ok: the broker acknowledged the call's message, or a
   * flush before this one had reported it lost.
   */
  lemma OkFlushConfirmsTheCall(config: SP.Config, before: seq<Event>, after: seq<Event>, t: nat, f: nat)
    requires config.identity.None? && HonestRun(config, INIT, before)
    requires ReturnedOk(After(config, INIT, before), t) && f >= |After(config, INIT, before).delivery.flushes|
    requires HonestRun(config, After(config, INIT, before), after)
    requires DT.AnsweredOk(After(config, After(config, INIT, before), after).delivery, f)
    ensures t in After(config, INIT, before).counted
    ensures
      var d := After(config, After(config, INIT, before), after).delivery;
      var p := After(config, INIT, before).counted[t];
      && p < |d.pubs| && DT.AccountsFor(d, f, p)
      && (d.pubs[p].custody.Confirmed? || d.pubs[p].fate.Reported?)
  {
    var s := After(config, INIT, before);
    SlotsRun(config, INIT, before);
    CountedRun(config, INIT, before);
    var _, first := RunProjects(config, INIT, before);
    DT.Reachable(first);
    var _, second := RunProjects(config, s, after);
    DP.HonestRunPreserves(s.delivery, second);
    BehindRun(s.delivery, second, s.counted[t], |s.delivery.flushes|);
    Confirmed(After(config, s, after).delivery, f, s.counted[t]);
  }

  lemma Confirmed(d: DP.System, f: nat, p: nat)
    requires DP.HonestInv(d) && DT.AnsweredOk(d, f) && p < d.flushes[f].seen
    requires p < |d.pubs| && d.pubs[p].Taken()
    ensures DT.AccountsFor(d, f, p)
    ensures d.pubs[p].custody.Confirmed? || d.pubs[p].fate.Reported?
  {
    assert DP.FlushOk(d, f) && DP.PubOk(d, p) && DP.CustodyOk(d, p);
  }

  // -- progress ----------------------------------------------------------------

  /**
   * While a call is unfinished something can go on: a call, the event loop, or the end of a call
   * whose guard is already gone. The guard never blocks what the gates would allow.
   */
  lemma SystemNeverStuck(config: SP.Config, events: seq<Event>, t: nat) returns (e: Event)
    requires config.capacity > 0 && ValidRun(config, INIT, events)
    requires
      var s := After(config, INIT, events).gates;
      t < |s.tasks| && !s.tasks[t].phase.Finished?
    ensures
      var s := After(config, INIT, events);
      && Enabled(config, s, e)
      && (e.CloneGate? || e.Acquire? || e.Start? || e.Take? || e.Resolve? || e.Drain?
          || (e.Cancel? && s.slots[e.task].Released?))
  {
    var s := After(config, INIT, events);
    var gateEvents, _ := RunProjects(config, INIT, events);
    SP.InitOk(config);
    SP.RunPreserves(config, SP.INIT, gateEvents);
    SlotsRun(config, INIT, events);
    var g := ST.NeverStuck(config, s.gates, t);
    e := CallOfGateStep(config, s, g);
  }

  /** Where the gates would let a call go on, the call goes on, counts first, or ends. */
  lemma CallOfGateStep(config: SP.Config, s: System, g: SP.Event) returns (e: Event)
    requires SlotsOk(config, s) && SP.Enabled(config, s.gates, g)
    requires g.CloneGate? || g.Acquire? || g.Take? || g.Resolve? || g.Drain?
    ensures Enabled(config, s, e)
    ensures e.CloneGate? || e.Acquire? || e.Start? || e.Take? || e.Resolve? || e.Drain?
            || (e.Cancel? && s.slots[e.task].Released?)
  {
    match g {
      case CloneGate(u) => e := CloneGate(u);
      case Acquire(u) => e := Acquire(u);
      case Drain => e := Drain;
      case Take(u) =>
        assert SlotOk(config, s, u);
        e := match s.slots[u] case Idle => Start(u) case Released => Cancel(u) case _ => Take(u);
      case Resolve(u) =>
        assert SlotOk(config, s, u);
        e := if s.slots[u].Released? then Cancel(u) else Resolve(u);
    }
  }

  /** A call may be cancelled at every await, and refused while it offers; its guard goes first. */
  lemma CallsMayEndAnywhere(config: SP.Config, s: System, t: nat)
    requires SP.Inv(config, s.gates) && SlotsOk(config, s)
    requires t < |s.slots| && !s.gates.tasks[t].phase.Finished? && !s.slots[t].InFlight?
    ensures Enabled(config, s, Cancel(t))
    ensures s.gates.tasks[t].phase.Offering? && !s.slots[t].Idle? ==> Enabled(config, s, Refuse(t))
  {
    ST.CallsMayEndAnywhere(config, s.gates, t);
  }

  /** A call begins whenever the gates let it, in any role. */
  lemma CallsBeginFreely(config: SP.Config, s: System, call: SP.Call)
    requires SP.Enabled(config, s.gates, SP.Begin(call))
    ensures Enabled(config, s, Begin(call))
    ensures Next(config, s, Begin(call)).gates == SP.Next(config, s.gates, SP.Begin(call))
    ensures Next(config, s, Begin(call)).delivery == s.delivery
  {
  }

  /** The calls hold back nothing the tracker sees from elsewhere. */
  lemma TrackerEventsAreFree(config: SP.Config, s: System, event: DP.Event)
    requires DP.Enabled(s.delivery, event)
    requires !event.CountPublish? && !event.TakePublish? && !event.KeepGuard? && !event.DropGuard?
    ensures Enabled(config, s, OnTracker(event))
    ensures Next(config, s, OnTracker(event)) == s.(delivery := DP.Next(s.delivery, event))
  {
  }

  /** A live guard may be dropped at any time, and leaves its call free to end. */
  lemma GuardsMayDropAnywhere(config: SP.Config, s: System, t: nat)
    requires SlotsOk(config, s) && t < |s.slots| && s.slots[t].InFlight?
    ensures Enabled(config, s, DropGuard(t))
    ensures Next(config, s, DropGuard(t)).slots[t] == Released && Next(config, s, DropGuard(t)).gates == s.gates
  {
    assert SlotOk(config, s, t);
  }

  function SlotWeight(slot: Slot): nat {
    match slot
    case Idle => 2
    case Released => 0
    case _ => 1
  }

  /** What the calls still have to do, their dealings with the tracker included. */
  function Measure(s: System): int {
    3 * ST.Measure(s.gates) + Sum(SlotWeight, s.slots)
  }

  lemma CallStepFalls(config: SP.Config, s: System, e: Event)
    requires SP.Inv(config, s.gates) && Enabled(config, s, e) && !e.Begin? && !e.OnTracker?
    ensures Measure(Next(config, s, e)) < Measure(s)
  {
    if GatePart(e).Some? {
      ST.StepFalls(config, s.gates, GatePart(e).value);
    }
    if e.Start? || e.Resolve? || e.DropGuard? || e.Refuse? || e.Cancel? {
      if e.task < |s.slots| {
        SumUpdate(SlotWeight, s.slots, e.task, SlotsAfter(config, s, e)[e.task]);
      }
    }
  }

  function CallEvents(events: seq<Event>): nat {
    if events == [] then 0 else (if events[0].OnTracker? then 0 else 1) + CallEvents(events[1..])
  }

  /** Finitely many calls end after finitely many events of their own, whatever the tracker sees meanwhile. */
  lemma {:induction false} SystemRunsEnd(config: SP.Config, s: System, events: seq<Event>)
    requires SP.Inv(config, s.gates) && ValidRun(config, s, events)
    requires forall i | 0 <= i < |events| :: !events[i].Begin?
    ensures CallEvents(events) <= Measure(s)
    decreases |events|
  {
    if events == [] {
    } else {
      var e := events[0];
      if GatePart(e).Some? {
        SP.StepPreserves(config, s.gates, GatePart(e).value);
      }
      if !e.OnTracker? {
        CallStepFalls(config, s, e);
      }
      SystemRunsEnd(config, Next(config, s, e), events[1..]);
    }
  }

  // -- a role with nothing to confirm ------------------------------------------

  /** No call publishes an NDEATH, the one edge node message the specification sends at QoS 1. */
  predicate NoDeaths(events: seq<Event>) {
    forall i | 0 <= i < |events| && events[i].Begin? && events[i].call.PublishMetrics? ::
      !events[i].call.topic.messageType.NDEATH?
  }

  /** Never left waiting, so never timed out or cancelled, and Ok once answered. */
  predicate PassesAtOnce(stage: DP.Stage) {
    && !stage.Parked? && !stage.TimedOut? && !stage.Abandoned?
    && (stage.Answered? ==> stage.answer == Success(()))
  }

  ghost predicate NothingTracked(config: SP.Config, s: System) {
    && |s.slots| == |s.gates.tasks|
    && (forall t | 0 <= t < |s.slots| :: !s.slots[t].InFlight?)
    && (forall t, i | 0 <= t < |s.gates.tasks| && 0 <= i < |s.gates.tasks[t].topics| ::
          !WireOptionsFor(EdgeNodeRole, s.gates.tasks[t].topics[i].messageType).tracked)
    && s.delivery.pubs == []
    && s.delivery.tracker.unacked == 0 && s.delivery.tracker.lost == 0 && s.delivery.tracker.reported == 0
    && (forall f | 0 <= f < |s.delivery.flushes| ::
          s.delivery.flushes[f].openedAt == 0 && PassesAtOnce(s.delivery.flushes[f].stage))
  }

  /** With nothing counted, no event of the tracker's own can make anything count. */
  lemma IdleTrackerStep(config: SP.Config, s: System, event: DP.Event)
    requires NothingTracked(config, s) && Enabled(config, s, OnTracker(event))
    ensures NothingTracked(config, Next(config, s, OnTracker(event)))
  {
  }

  /** No call of this role has a message to count. */
  lemma UntrackedTopics(config: SP.Config, s: System, e: Event, t: nat, i: nat)
    requires config.identity.Some? && NothingTracked(config, s) && Enabled(config, s, e)
    requires e.Begin? && e.call.PublishMetrics? ==> !e.call.topic.messageType.NDEATH?
    requires t < |Next(config, s, e).gates.tasks| && i < |Next(config, s, e).gates.tasks[t].topics|
    ensures !WireOptionsFor(EdgeNodeRole, Next(config, s, e).gates.tasks[t].topics[i].messageType).tracked
  {
    if t < |s.gates.tasks| {
      assert Next(config, s, e).gates.tasks[t].topics == s.gates.tasks[t].topics;
    }
  }

  lemma IdleCallStep(config: SP.Config, s: System, e: Event)
    requires config.identity.Some? && NothingTracked(config, s) && Enabled(config, s, e) && !e.OnTracker?
    ensures Next(config, s, e).delivery == s.delivery
    ensures |Next(config, s, e).slots| == |Next(config, s, e).gates.tasks|
    ensures forall t | 0 <= t < |Next(config, s, e).slots| :: !Next(config, s, e).slots[t].InFlight?
  {
  }

  lemma NothingTrackedStep(config: SP.Config, s: System, e: Event)
    requires config.identity.Some? && NothingTracked(config, s) && Enabled(config, s, e) && NoDeaths([e])
    ensures NothingTracked(config, Next(config, s, e))
  {
    assert [e][0] == e;
    if e.OnTracker? {
      IdleTrackerStep(config, s, e.event);
    } else {
      IdleCallStep(config, s, e);
      var s' := Next(config, s, e);
      forall t, i | 0 <= t < |s'.gates.tasks| && 0 <= i < |s'.gates.tasks[t].topics|
        ensures !WireOptionsFor(EdgeNodeRole, s'.gates.tasks[t].topics[i].messageType).tracked
      {
        UntrackedTopics(config, s, e, t, i);
      }
    }
  }

  lemma {:induction false} NothingTrackedRun(config: SP.Config, s: System, events: seq<Event>)
    requires config.identity.Some? && NothingTracked(config, s) && ValidRun(config, s, events) && NoDeaths(events)
    ensures NothingTracked(config, After(config, s, events))
    decreases |events|
  {
    if events == [] {
    } else {
      assert NoDeaths([events[0]]) && NoDeaths(events[1..]);
      NothingTrackedStep(config, s, events[0]);
      NothingTrackedRun(config, Next(config, s, events[0]), events[1..]);
    }
  }

  /**
   * In the edge node role a run that publishes no NDEATH keeps every delivery count at 0 under any
   * acknowledgements and disconnects, so no flush ever waits, times out or reports a loss.
   */
  lemma EdgeNodeRoleConfirmsNothing(config: SP.Config, events: seq<Event>)
    requires config.identity.Some? && ValidRun(config, INIT, events) && NoDeaths(events)
    ensures
      var d := After(config, INIT, events).delivery;
      && d.pubs == [] && d.tracker.unacked == 0 && d.tracker.lost == 0 && d.tracker.reported == 0
      && forall f | 0 <= f < |d.flushes| :: PassesAtOnce(d.flushes[f].stage)
  {
    NothingTrackedRun(config, INIT, events);
  }
}
